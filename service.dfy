/** A running Neo4j service: the `Neo4jService` base class and its
    standalone and cluster variants (boltkit/server/__init__.py, lines
    190-677), with Docker and Bolt replaced by the observations they would
    return. */
module Services {
  import opened Wrappers
  import opened Settings
  import opened MachineSpecs
  import opened Machines
  import opened Allocation
  import opened Routing
  import opened Topology

  /** Which subclass `Neo4jService.__new__` picked. */
  datatype Kind = StandaloneKind | ClusterKind

  /** The entries the cluster constructor reserves: the first `cores` core
      slots, then the first `replicas` replica slots. */
  ghost function Reservation(coreTable: seq<Spec>, replicaTable: seq<Spec>, shape: Shape): seq<Slot>
    requires shape.cores <= |coreTable| && shape.replicas <= |replicaTable|
  {
    Reserved(coreTable[..shape.cores] + replicaTable[..shape.replicas])
  }

  /** The entries' machines run the entries' specs, and every spec is well
      formed: what both kinds of service keep. */
  ghost predicate EntriesLayout(slots: seq<Slot>) {
    Provisioned(slots) && WellFormedSpecs(SpecsOf(slots))
  }

  /** What a cluster keeps besides: its tables are as allocated, and each
      of their slots is either an entry or free. */
  ghost predicate PoolsLayout(name: string, slots: seq<Slot>, freeCores: seq<Spec>, freeReplicas: seq<Spec>,
                              coreTable: seq<Spec>, replicaTable: seq<Spec>)
  {
    && WellFormedSpecs(freeCores) && WellFormedSpecs(freeReplicas)
    && AllocatedTables(coreTable, replicaTable, name)
    && Partitioned(slots, freeCores, freeReplicas, coreTable, replicaTable)
  }

  /** `Service.Layout()` over the service's state as values: a standalone
      service has its single entry "a" and no pools. */
  ghost predicate ServiceLayout(kind: Kind, name: string, slots: seq<Slot>, freeCores: seq<Spec>,
                                freeReplicas: seq<Spec>, coreTable: seq<Spec>, replicaTable: seq<Spec>)
  {
    && EntriesLayout(slots)
    && (kind == StandaloneKind ==>
          && |slots| == 1 && slots[0].spec.name == "a" && slots[0].spec.serviceName == name
          && slots[0].spec.role == Standalone && freeCores == [] && freeReplicas == [])
    && (kind == ClusterKind ==> PoolsLayout(name, slots, freeCores, freeReplicas, coreTable, replicaTable))
  }

  /** Every machine of the entries was created with the service's image and
      credentials. */
  ghost predicate Issued(slots: seq<Slot>, image: string, auth: Auth) {
    forall i :: 0 <= i < |slots| && slots[i].machine != null ==>
      slots[i].machine.image == image && slots[i].machine.auth == Some(auth)
  }

  /** A new machine for `spec`, before it is awaited. */
  method Launch(spec: Spec, image: string, auth: Auth) returns (m: Machine)
    ensures fresh(m) && m.spec == spec && m.ready == 0
    ensures m.image == image && m.auth == Some(auth)
  {
    m := new Machine(spec, image, Some(auth));
  }

  /** Giving entry `i` a machine issued for the service keeps every machine so issued. */
  lemma IssuedBoot(slots: seq<Slot>, i: nat, spec: Spec, m: Machine, image: string, auth: Auth)
    requires Issued(slots, image, auth) && i < |slots|
    requires m.image == image && m.auth == Some(auth)
    ensures Issued(slots[i := Slot(spec, m)], image, auth)
  {
  }

  /** A reserved entry has no machine, so appending one keeps every machine issued. */
  lemma IssuedReserve(slots: seq<Slot>, spec: Spec, image: string, auth: Auth)
    requires Issued(slots, image, auth)
    ensures Issued(slots + [Slot(spec, null)], image, auth)
  {
  }

  /** Dropping entry `k` keeps every remaining machine issued. */
  lemma IssuedRemove(slots: seq<Slot>, k: nat, image: string, auth: Auth)
    requires Issued(slots, image, auth) && k < |slots|
    ensures Issued(slots[..k] + slots[k + 1..], image, auth)
  {
    forall j | 0 <= j < |slots| - 1
      ensures (slots[..k] + slots[k + 1..])[j] == if j < k then slots[j] else slots[j + 1]
    {
    }
  }

  /** The standalone constructor's one entry makes a valid service. */
  lemma StandaloneLayout(name: string, spec: Spec, m: Machine, slots: seq<Slot>)
    requires Distinct(spec.config) && spec.role == Standalone && spec.name == "a" && spec.serviceName == name
    requires m.spec == spec && slots == [Slot(spec, m)]
    ensures ServiceLayout(StandaloneKind, name, slots, [], [], [], []) && AllBooted(slots)
  {
    SingleEntry(Slot(spec, m));
  }

  /** Reserving the front spec of a pool keeps a cluster's layout. */
  lemma ReserveKeepsLayout(name: string, slots: seq<Slot>, freeCores: seq<Spec>, freeReplicas: seq<Spec>,
                           coreTable: seq<Spec>, replicaTable: seq<Spec>, role: Role,
                           slots': seq<Slot>, freeCores': seq<Spec>, freeReplicas': seq<Spec>)
    requires EntriesLayout(slots) && PoolsLayout(name, slots, freeCores, freeReplicas, coreTable, replicaTable)
    requires role != Standalone && PoolOf(freeCores, freeReplicas, role) != []
    requires slots' == slots + [Slot(PoolOf(freeCores, freeReplicas, role)[0], null)]
    requires freeCores' == if role == Core then freeCores[1..] else freeCores
    requires freeReplicas' == if role == Replica then freeReplicas[1..] else freeReplicas
    ensures EntriesLayout(slots')
    ensures PoolsLayout(name, slots', freeCores', freeReplicas', coreTable, replicaTable)
  {
    var spec := PoolOf(freeCores, freeReplicas, role)[0];
    PartitionedAdd(slots, freeCores, freeReplicas, coreTable, replicaTable, role);
    assert WellFormedSpecs([spec]);
    WellFormedAppend(slots, Slot(spec, null));
    ProvisionedAppendReserved(slots, spec);
  }

  /** Giving reserved entry `i` its stamped spec and a machine of its own
      keeps a cluster's layout. */
  lemma BootKeepsLayout(name: string, slots: seq<Slot>, freeCores: seq<Spec>, freeReplicas: seq<Spec>,
                        coreTable: seq<Spec>, replicaTable: seq<Spec>, i: nat, members: string, m: Machine,
                        slots': seq<Slot>)
    requires ServiceLayout(ClusterKind, name, slots, freeCores, freeReplicas, coreTable, replicaTable)
    requires i < |slots| && slots[i].machine == null
    requires m.spec == Stamp(slots[i].spec, members) && forall k :: 0 <= k < |slots| ==> slots[k].machine != m
    requires slots' == slots[i := Slot(Stamp(slots[i].spec, members), m)]
    ensures Distinct(slots[i].spec.config)
    ensures ServiceLayout(ClusterKind, name, slots', freeCores, freeReplicas, coreTable, replicaTable)
  {
    assert SpecsOf(slots)[i] == slots[i].spec;
    WellFormedStamp(slots, i, members);
    ProvisionedBoot(slots, i, Stamp(slots[i].spec, members), m);
    PartitionedSameBlanks(slots, slots', freeCores, freeReplicas, coreTable, replicaTable);
  }

  /** Stopping the entry at `k` and returning its spec to the end of its
      pool keeps a cluster's layout, and every entry keeps its machine. */
  lemma StopKeepsLayout(name: string, slots: seq<Slot>, freeCores: seq<Spec>, freeReplicas: seq<Spec>,
                        coreTable: seq<Spec>, replicaTable: seq<Spec>, k: nat,
                        slots': seq<Slot>, freeCores': seq<Spec>, freeReplicas': seq<Spec>)
    requires EntriesLayout(slots) && PoolsLayout(name, slots, freeCores, freeReplicas, coreTable, replicaTable)
    requires AllBooted(slots) && k < |slots| && slots' == slots[..k] + slots[k + 1..]
    requires slots[k].spec.role == Core ==> freeCores' == freeCores + [slots[k].spec] && freeReplicas' == freeReplicas
    requires slots[k].spec.role != Core ==>
      freeReplicas' == freeReplicas + [slots[k].spec] && freeCores' == freeCores
    ensures slots[k].spec.role != Standalone
    ensures EntriesLayout(slots') && AllBooted(slots')
    ensures PoolsLayout(name, slots', freeCores', freeReplicas', coreTable, replicaTable)
  {
    assert slots == slots[..k] + [slots[k]] + slots[k + 1..];
    PartitionedRemove(slots[..k], slots[k], slots[k + 1..], freeCores, freeReplicas, coreTable, replicaTable);
    ProvisionedRemove(slots, k);
    WellFormedRemove(slots, k);
    WellFormedConcat(freeCores, [slots[k].spec]);
    WellFormedConcat(freeReplicas, [slots[k].spec]);
    AllBootedRemove(slots, k);
  }

  /** `machines` after adding `spec`: the old entries unchanged, then
      `spec` booted with the discovery members of all the cores. */
  ghost predicate Grown(before: seq<Slot>, after: seq<Slot>, spec: Spec) {
    && |after| == |before| + 1 && after[..|before|] == before
    && BootedFrom(Slot(spec, null), after[|before|], DiscoveryMembers(before + [Slot(spec, null)]))
  }

  lemma GrownFromBoot(before: seq<Slot>, reserved: seq<Slot>, after: seq<Slot>, spec: Spec)
    requires AllBooted(before) && reserved == before + [Slot(spec, null)]
    requires BootedAll(reserved, after, DiscoveryMembers(reserved))
    ensures Grown(before, after, spec)
  {
    assert BootedFrom(reserved[|before|], after[|before|], DiscoveryMembers(reserved));
    assert forall i :: 0 <= i < |before| ==> reserved[i] == before[i] && BootedFrom(before[i], after[i], DiscoveryMembers(reserved));
  }

  /** Adding a server and then taking out the entry at the old length
      leaves the old entries; the added spec still has the popped spec's
      slot. */
  lemma GrownThenStopped(before: seq<Slot>, after: seq<Slot>, spec: Spec)
    requires Grown(before, after, spec)
    ensures |before| < |after| && after[..|before|] + after[|before| + 1..] == before
    ensures Blank(after[|before|].spec) == Blank(spec)
  {
    assert after[|before| + 1..] == [];
  }

  /** A reservation loop after `i` rounds: the first `i` specs of `pool`
      were appended to `base` as entries without a machine, and the rest
      are still in the pool. */
  ghost predicate ReservedUpTo(base: seq<Slot>, pool: seq<Spec>, i: nat, slots: seq<Slot>, rest: seq<Spec>) {
    i <= |pool| && slots == base + Reserved(pool[..i]) && rest == pool[i..]
  }

  lemma ReservedUpToStep(base: seq<Slot>, pool: seq<Spec>, i: nat, slots: seq<Slot>, rest: seq<Spec>,
                         slots': seq<Slot>, rest': seq<Spec>)
    requires ReservedUpTo(base, pool, i, slots, rest) && rest != []
    requires slots' == slots + [Slot(rest[0], null)] && rest' == rest[1..]
    ensures ReservedUpTo(base, pool, i + 1, slots', rest')
  {
    ReservedExtend([], pool, i);
    assert [] + pool[..i] == pool[..i] && [] + pool[..i + 1] == pool[..i + 1];
  }

  /** `console_remove` before its loop: nothing visited yet. */
  lemma RemoveStart(snapshot: seq<Slot>, name: string, cache: Option<RoutingCache>,
                    freeCores: seq<Spec>, freeReplicas: seq<Spec>)
    ensures RemoveProgress(snapshot, 0, name, cache, snapshot, freeCores, freeReplicas, freeCores, freeReplicas)
    ensures |Removed(snapshot[..0], name, cache)| == 0
  {
    assert snapshot[..0] == [] && snapshot[0..] == snapshot;
  }

  /** `console_remove` after its loop: every entry was visited. */
  lemma RemoveDone(snapshot: seq<Slot>, i: nat, name: string, cache: Option<RoutingCache>,
                   slots: seq<Slot>, freeCores: seq<Spec>, freeReplicas: seq<Spec>,
                   cores0: seq<Spec>, replicas0: seq<Spec>)
    requires RemoveProgress(snapshot, i, name, cache, slots, freeCores, freeReplicas, cores0, replicas0)
    requires i >= |snapshot|
    ensures slots == Kept(snapshot, name, cache) && snapshot[..i] == snapshot
    ensures freeCores == cores0 + SpecsOfRole(Removed(snapshot, name, cache), Core)
    ensures freeReplicas == replicas0 + SpecsOfRole(Removed(snapshot, name, cache), Replica)
  {
    assert snapshot[..i] == snapshot && snapshot[i..] == [];
    assert Kept(snapshot, name, cache) + [] == Kept(snapshot, name, cache);
  }

  /** `_boot_machines` after its first `i` entries: those are booted from
      `before` with `members`, the rest are untouched. */
  ghost predicate BootedUpTo(before: seq<Slot>, after: seq<Slot>, i: nat, members: string) {
    && i <= |after| == |before|
    && (forall k :: 0 <= k < i ==> BootedFrom(before[k], after[k], members))
    && (forall k :: i <= k < |after| ==> after[k] == before[k])
  }

  /** One more entry of the `_boot_machines` loop: booted if it was
      reserved, left alone otherwise. */
  lemma BootedUpToStep(before: seq<Slot>, mid: seq<Slot>, after: seq<Slot>, i: nat, members: string, m: Machine?)
    requires BootedUpTo(before, mid, i, members) && i < |mid|
    requires mid[i].machine != null ==> after == mid
    requires mid[i].machine == null ==>
      Distinct(mid[i].spec.config) && m != null && after == mid[i := Slot(Stamp(mid[i].spec, members), m)]
    ensures BootedUpTo(before, after, i + 1, members)
  {
  }

  /** A finished `_boot_machines` loop leaves every entry with a machine. */
  lemma BootedUpToAll(before: seq<Slot>, after: seq<Slot>, members: string)
    requires BootedUpTo(before, after, |after|, members)
    ensures AllBooted(after) && BootedAll(before, after, members)
  {
    forall k | 0 <= k < |after|
      ensures after[k].machine != null
    {
      assert BootedFrom(before[k], after[k], members);
    }
  }

  /** What `env()` reports: `BOLT_SERVER_ADDR` as the list of router
      addresses, and `NEO4J_AUTH`. */
  datatype Environment = Environment(boltServerAddresses: seq<Address>, neo4jAuth: string)

  /** One `ls` line without its layout: fq name, ports, mode, role markers.
      The container id is not part of this model. */
  datatype Row = Row(fqName: string, boltPort: int, httpPort: int, mode: string, roles: string)

  /** The addresses of the routers, one per router; `None` if one of them is
      `None`. */
  function RouterAddresses(routers: seq<Machine?>): (r: Option<seq<Address>>)
    ensures r.Some? <==> null !in routers
    ensures r.Some? ==> (|r.value| == |routers| &&
      forall i :: 0 <= i < |routers| ==> routers[i] != null && r.value[i] == BoltAddress(routers[i].spec))
  {
    if routers == [] then Some([])
    else if routers[0] == null then None
    else
      var rest := RouterAddresses(routers[1..]);
      if rest.None? then None
      else
        assert forall i :: 1 <= i < |routers| ==> routers[i] == routers[1..][i - 1];
        Some([BoltAddress(routers[0].spec)] + rest.value)
  }

  /** The `routers` property over the service's state as values: a
      cluster's cores; for a standalone service the cached routers when
      there are any, else all its machines. */
  function RoutersOf(kind: Kind, slots: seq<Slot>, cache: Option<RoutingCache>): seq<Machine?> {
    if kind == ClusterKind then MachinesOfRole(slots, Core)
    else if cache.Some? && cache.value.routers != [] then cache.value.routers
    else MachinesOf(slots)
  }

  /** `env()` for the given routers and credentials: `None` where a router
      is `None` (the source fails on `None.addresses`). */
  function EnvOf(routers: seq<Machine?>, auth: Auth): Option<Environment> {
    var addresses := RouterAddresses(routers);
    if addresses.Some? then Some(Environment(addresses.value, auth.user + ":" + auth.password)) else None
  }

  /** The cache `_update_routing_info` builds from a routing record: the
      last entry per role, each address resolved to its machine, and the
      record's ttl. */
  function ResolvedCache(slots: seq<Slot>, record: RoutingRecord): RoutingCache {
    RoutingCache(Resolve(slots, LastOfRole(record.servers, RouteRole)),
                 Resolve(slots, LastOfRole(record.servers, ReadRole)),
                 Resolve(slots, LastOfRole(record.servers, WriteRole)),
                 record.ttl)
  }

  /** How `_update_routing_info` ends: the cache replaced, `RuntimeError`
      for an empty result, or `AttributeError` on a `None` router while the
      addresses to connect to are collected, before any query. */
  datatype Refresh = Refreshed | NoRoutingInfo | RouterMissing


  function MaxOf(role: Role): nat {
    if role == Core then MaxCores else MaxReplicas
  }

  function RoleWord(role: Role): string {
    if role == Core then "core" else "replica"
  }

  function Other(role: Role): Role {
    if role == Core then Replica else Core
  }

  function NotFound(name: string): seq<string> {
    ["Machine " + name + " not found"]
  }

  /** The ROLES column: "?" before routing information was obtained, else
      "r" for a cached reader and "w" for a cached writer. */
  function RolesOf(m: Machine?, cache: Option<RoutingCache>): string {
    if cache.None? then "?"
    else (if m in cache.value.readers then "r" else "") + (if m in cache.value.writers then "w" else "")
  }

  function ListRow(s: Slot, cache: Option<RoutingCache>): Row {
    Row(FqName(s.spec), s.spec.boltPort, s.spec.httpPort, Get(s.spec.config, ModeKey).GetOr("SINGLE"),
        RolesOf(s.machine, cache))
  }

  class Service {
    const name: string
    const image: string
    const auth: Auth
    const kind: Kind
    /** The seventeen specs a cluster allocated up front (empty for a
        standalone service). */
    ghost const coreTable: seq<Spec>
    ghost const replicaTable: seq<Spec>
    /** `self.machines`, in insertion order. */
    var machines: seq<Slot>
    /** `free_core_machine_specs` and `free_replica_machine_specs`. */
    var freeCores: seq<Spec>
    var freeReplicas: seq<Spec>
    /** `_routers`, `_readers`, `_writers` and `_ttl`; `None` until routing
        information was first obtained. */
    var routing: Option<RoutingCache>

    /** The invariant of the service, where a reserved entry may still be
        waiting for its machine. */
    ghost predicate Layout()
      reads this
    {
      && ServiceLayout(kind, name, machines, freeCores, freeReplicas, coreTable, replicaTable)
      && Issued(machines, image, auth)
    }

    /** The invariant between operations: every entry has its machine. */
    ghost predicate Valid()
      reads this
    {
      Layout() && AllBooted(machines)
    }

    /** `Neo4jStandaloneService(...)`: one spec, named "a", and its machine. */
    constructor StandaloneService(name: string, image: string, auth: Auth, boltPort: int, httpPort: int, config: Dict)
      requires Distinct(config)
      ensures Valid() && kind == StandaloneKind && routing == None
      ensures this.name == name && this.image == image && this.auth == auth
      ensures |machines| == 1 && fresh(machines[0].machine)
      ensures machines[0].machine != null && machines[0].machine.ready == 0
      ensures machines[0].spec == NewSpec("a", name, OrDefault(boltPort, StandaloneBoltPort),
                                          OrDefault(httpPort, StandaloneHttpPort), Standalone, config)
    {
      this.name := name;
      this.image := image;
      this.auth := auth;
      kind := StandaloneKind;
      coreTable, replicaTable := [], [];
      var spec := NewSpec("a", name, OrDefault(boltPort, StandaloneBoltPort),
                          OrDefault(httpPort, StandaloneHttpPort), Standalone, config);
      var m := Launch(spec, image, auth);
      machines := [Slot(spec, m)];
      freeCores, freeReplicas := [], [];
      routing := None;
      new;
      StandaloneLayout(name, spec, m, machines);
      IssuedBoot([Slot(spec, null)], 0, spec, m, image, auth);
    }

    /** `Neo4jClusterService(...)` once its counts were checked: allocate
        both tables, move the first `cores` and `replicas` specs into
        `machines`, then boot them. */
    constructor ClusterService(name: string, image: string, auth: Auth, shape: Shape,
                        boltPort: int, httpPort: int, config: Dict)
      requires MinCores <= shape.cores <= MaxCores && shape.replicas <= MaxReplicas
      requires Distinct(config)
      ensures Valid() && kind == ClusterKind && routing == None
      ensures this.name == name && this.image == image && this.auth == auth
      ensures coreTable == CoreSpecs(name, OrDefault(boltPort, ClusterBoltPort),
                                     OrDefault(httpPort, ClusterHttpPort), shape.cores, config)
      ensures replicaTable == ReplicaSpecs(name, OrDefault(boltPort, ClusterBoltPort),
                                           OrDefault(httpPort, ClusterHttpPort), config)
      ensures freeCores == coreTable[shape.cores..] && freeReplicas == replicaTable[shape.replicas..]
      ensures |machines| == shape.cores + shape.replicas
      ensures DiscoveryMembers(Reservation(coreTable, replicaTable, shape)) ==
              Join(DiscoveryAddresses(coreTable[..shape.cores]), ',')
      ensures BootedAll(Reservation(coreTable, replicaTable, shape), machines,
                        DiscoveryMembers(Reservation(coreTable, replicaTable, shape)))
    {
      this.name := name;
      this.image := image;
      this.auth := auth;
      kind := ClusterKind;
      var bolt, http := OrDefault(boltPort, ClusterBoltPort), OrDefault(httpPort, ClusterHttpPort);
      var cores := CoreSpecs(name, bolt, http, shape.cores, config);
      var replicas := ReplicaSpecs(name, bolt, http, config);
      coreTable, replicaTable := cores, replicas;
      machines, freeCores, freeReplicas, routing := [], cores, replicas, None;
      new;
      InitialTables(name, bolt, http, shape.cores, config);
      InitialPartition(cores, replicas);
      InitialSpecs(name, bolt, http, shape.cores, config);
      assert SpecsOf([]) == [];
      Populate(shape.cores, shape.replicas, cores, replicas);
    }

    /** The tail of the cluster constructor: reserve the first `nCores`
        core specs and the first `nReplicas` replica specs, then boot
        them. */
    method Populate(nCores: nat, nReplicas: nat, ghost cores0: seq<Spec>, ghost replicas0: seq<Spec>)
      requires Layout() && kind == ClusterKind && machines == [] && routing == None
      requires freeCores == cores0 && freeReplicas == replicas0
      requires nCores <= |cores0| && nReplicas <= |replicas0|
      modifies this
      ensures Valid() && routing == None
      ensures freeCores == cores0[nCores..] && freeReplicas == replicas0[nReplicas..]
      ensures |machines| == nCores + nReplicas
      ensures DiscoveryMembers(Reserved(cores0[..nCores] + replicas0[..nReplicas]))
              == Join(DiscoveryAddresses(cores0[..nCores]), ',')
      ensures BootedAll(Reserved(cores0[..nCores] + replicas0[..nReplicas]), machines,
                        DiscoveryMembers(Reserved(cores0[..nCores] + replicas0[..nReplicas])))
    {
      ghost var cores, replicas := cores0[..nCores], replicas0[..nReplicas];
      ReserveFirst(Core, nCores);
      assert machines == Reserved(cores);
      ReserveFirst(Replica, nReplicas);
      ReservedConcat(cores, replicas);
      ReservationCores(cores, replicas);
      ghost var reserved := machines;
      assert reserved == Reserved(cores + replicas);
      BootMachines(reserved);
    }

    /** One reservation loop of the cluster constructor: the first `count`
        specs of a pool become entries without a machine. */
    method ReserveFirst(role: Role, count: nat)
      requires Layout() && kind == ClusterKind && role != Standalone
      requires count <= |PoolOf(freeCores, freeReplicas, role)|
      modifies this
      ensures Layout() && routing == old(routing)
      ensures machines == old(machines) + Reserved(old(PoolOf(freeCores, freeReplicas, role))[..count])
      ensures PoolOf(freeCores, freeReplicas, role) == old(PoolOf(freeCores, freeReplicas, role))[count..]
      ensures role == Core ==> freeReplicas == old(freeReplicas)
      ensures role == Replica ==> freeCores == old(freeCores)
    {
      ghost var pool := PoolOf(freeCores, freeReplicas, role);
      ghost var base := machines;
      var i := 0;
      while i < count
        invariant i <= count && Layout() && routing == old(routing)
        invariant ReservedUpTo(base, pool, i, machines, PoolOf(freeCores, freeReplicas, role))
        invariant role == Core ==> freeReplicas == old(freeReplicas)
        invariant role == Replica ==> freeCores == old(freeCores)
      {
        ghost var slots, rest := machines, PoolOf(freeCores, freeReplicas, role);
        ReserveNext(role);
        ReservedUpToStep(base, pool, i, slots, rest, machines, PoolOf(freeCores, freeReplicas, role));
        i := i + 1;
      }
    }

    /** `spec = pool.pop(0); self.machines[spec] = None`, as the cluster
        constructor and the two add commands do it. */
    method ReserveNext(role: Role)
      requires Layout() && kind == ClusterKind && role != Standalone && PoolOf(freeCores, freeReplicas, role) != []
      modifies this
      ensures Layout()
      ensures machines == old(machines) + [Slot(old(PoolOf(freeCores, freeReplicas, role))[0], null)]
      ensures role == Core ==> freeCores == old(freeCores)[1..] && freeReplicas == old(freeReplicas)
      ensures role == Replica ==> freeReplicas == old(freeReplicas)[1..] && freeCores == old(freeCores)
      ensures routing == old(routing)
    {
      ghost var slots, cores, replicas := machines, freeCores, freeReplicas;
      var spec;
      if role == Core {
        spec := freeCores[0];
        freeCores := freeCores[1..];
      } else {
        spec := freeReplicas[0];
        freeReplicas := freeReplicas[1..];
      }
      machines := machines + [Slot(spec, null)];
      ReserveKeepsLayout(name, slots, cores, replicas, coreTable, replicaTable, role, machines, freeCores, freeReplicas);
      IssuedReserve(slots, spec, image, auth);
    }

    /** `_boot_machines`: each reserved entry gets the discovery list of
        all core entries and then its machine; provisioned entries are left
        alone. */
    method BootMachines(ghost before: seq<Slot>)
      requires Layout() && kind == ClusterKind && machines == before
      modifies this
      ensures Valid()
      ensures BootedAll(before, machines, DiscoveryMembers(before))
      ensures |machines| > 0 && before[|machines| - 1].machine == null ==>
        fresh(machines[|machines| - 1].machine) && machines[|machines| - 1].machine.ready == 0
      ensures freeCores == old(freeCores) && freeReplicas == old(freeReplicas) && routing == old(routing)
    {
      var members := DiscoveryMembers(machines);
      var i := 0;
      while i < |machines|
        invariant Layout() && BootedUpTo(before, machines, i, members)
        invariant freeCores == old(freeCores) && freeReplicas == old(freeReplicas) && routing == old(routing)
        invariant i == |before| > 0 && before[i - 1].machine == null ==>
          fresh(machines[i - 1].machine) && machines[i - 1].machine.ready == 0
      {
        ghost var mid := machines;
        var m: Machine? := null;
        if machines[i].machine == null {
          m := BootSlot(i, members);
        }
        BootedUpToStep(before, mid, machines, i, members, m);
        i := i + 1;
      }
      BootedUpToAll(before, machines, members);
    }

    /** One pass of the `_boot_machines` loop over a reserved entry. */
    method BootSlot(i: nat, members: string) returns (m: Machine)
      requires Layout() && kind == ClusterKind && i < |machines| && machines[i].machine == null
      modifies this
      ensures Layout() && Distinct(old(machines)[i].spec.config)
      ensures machines == old(machines)[i := Slot(Stamp(old(machines)[i].spec, members), m)]
      ensures fresh(m) && m.ready == 0
      ensures freeCores == old(freeCores) && freeReplicas == old(freeReplicas) && routing == old(routing)
    {
      var spec := Stamp(machines[i].spec, members);
      ghost var slots, cores, replicas := machines, freeCores, freeReplicas;
      assert ServiceLayout(ClusterKind, name, slots, cores, replicas, coreTable, replicaTable);
      m := Launch(spec, image, auth);
      machines := machines[i := Slot(spec, m)];
      BootKeepsLayout(name, slots, cores, replicas, coreTable, replicaTable, i, members, m, machines);
      IssuedBoot(slots, i, spec, m, image, auth);
    }

    // -------------------------------------------------------------------------
    // Readiness, routers and routing information

    /** `await_started`: each machine in turn decides its readiness from
        what it observes; the service is available only if every machine is
        ready (otherwise the source raises `OSError`). */
    method AwaitStarted(observations: seq<Observation>) returns (available: bool)
      requires Valid() && |observations| == |machines|
      modifies MachinesOf(machines)
      ensures forall i :: 0 <= i < |machines| ==>
        machines[i].machine.ready == NextReadiness(old(machines[i].machine.ready), observations[i])
      ensures available <==> forall i :: 0 <= i < |machines| ==> machines[i].machine.ready == 1
    {
      var i := 0;
      while i < |machines|
        invariant 0 <= i <= |machines|
        invariant forall k :: 0 <= k < i ==>
          machines[k].machine.ready == NextReadiness(old(machines[k].machine.ready), observations[k])
        invariant forall k :: i <= k < |machines| ==> machines[k].machine.ready == old(machines[k].machine.ready)
      {
        machines[i].machine.AwaitStarted(observations[i]);
        i := i + 1;
      }
      available := forall k :: 0 <= k < |machines| ==> machines[k].machine.ready == 1;
    }

    /** The `routers` property: a cluster's cores; for a standalone service
        the cached routers when there are any, else all its machines. */
    function Routers(): seq<Machine?>
      reads this
    {
      RoutersOf(kind, machines, routing)
    }

    /** `env()`: the router addresses and the auth string, or `None` where a
        cached router is `None` (the source fails on `None.addresses`). */
    function Env(): (e: Option<Environment>)
      reads this
      ensures e.Some? <==> null !in Routers()
      ensures e.Some? ==> e.value.neo4jAuth == auth.user + ":" + auth.password
      ensures e.Some? ==> (|e.value.boltServerAddresses| == |Routers()| &&
        forall i :: 0 <= i < |Routers()| ==> e.value.boltServerAddresses[i] == BoltAddress(Routers()[i].spec))
    {
      EnvOf(Routers(), auth)
    }

    /** `_update_routing_info`, given the records the routing procedure
        returned. A `None` router fails before the query is sent; no records
        fail with `RuntimeError`; both leave the cache alone. Otherwise the
        first record's ttl and last entry per role replace it, each address
        resolved to its machine. */
    method UpdateRoutingInfo(records: seq<RoutingRecord>) returns (r: Refresh)
      requires Valid()
      modifies this
      ensures Valid()
      ensures machines == old(machines) && freeCores == old(freeCores) && freeReplicas == old(freeReplicas)
      ensures r == RouterMissing <==> null in old(Routers())
      ensures r == NoRoutingInfo <==> null !in old(Routers()) && records == []
      ensures r != Refreshed ==> routing == old(routing)
      ensures r == Refreshed ==> routing == Some(RoutingCache(
        Resolve(machines, LastOfRole(records[0].servers, RouteRole)),
        Resolve(machines, LastOfRole(records[0].servers, ReadRole)),
        Resolve(machines, LastOfRole(records[0].servers, WriteRole)),
        records[0].ttl))
    {
      if null in Routers() {
        return RouterMissing;
      }
      if records == [] {
        return NoRoutingInfo;
      }
      var routers, readers, writers := SelectRoles(records[0].servers);
      routing := Some(RoutingCache(Resolve(machines, routers), Resolve(machines, readers),
                                   Resolve(machines, writers), records[0].ttl));
      r := Refreshed;
    }

    // -------------------------------------------------------------------------
    // Adding and removing cluster members

    /** `console_add_core` (role `Core`) and `console_add_replica` (role
        `Replica`): below the maximum, the front spec of the pool becomes a
        new entry, is booted and awaited; at the maximum nothing changes. */
    method Add(role: Role, o: Observation) returns (line: string)
      requires Valid() && kind == ClusterKind && role != Standalone
      modifies this
      ensures Valid() && routing == old(routing)
      ensures |old(SpecsOfRole(machines, role))| < MaxOf(role) ==>
        && old(PoolOf(freeCores, freeReplicas, role)) != []
        && Grown(old(machines), machines, old(PoolOf(freeCores, freeReplicas, role))[0])
        && fresh(machines[|old(machines)|].machine)
        && machines[|old(machines)|].machine.ready == NextReadiness(0, o)
        && PoolOf(freeCores, freeReplicas, role) == old(PoolOf(freeCores, freeReplicas, role))[1..]
        && PoolOf(freeCores, freeReplicas, Other(role)) == old(PoolOf(freeCores, freeReplicas, Other(role)))
        && line == "Added " + RoleWord(role) + " server '" + FqName(old(PoolOf(freeCores, freeReplicas, role))[0]) + "'"
      ensures |old(SpecsOfRole(machines, role))| >= MaxOf(role) ==>
        && machines == old(machines) && freeCores == old(freeCores) && freeReplicas == old(freeReplicas)
        && line == "A maximum of " + NatToString(MaxOf(role)) + " " + RoleWord(role) + "s is permitted"
    {
      if |MachinesOfRole(machines, role)| < MaxOf(role) {
        PoolSizes(machines, freeCores, freeReplicas, coreTable, replicaTable);
        var spec := Grow(role, o);
        line := "Added " + RoleWord(role) + " server '" + FqName(spec) + "'";
      } else {
        line := "A maximum of " + NatToString(MaxOf(role)) + " " + RoleWord(role) + "s is permitted";
      }
    }

    /** The growing half of `console_add_core` and `console_add_replica`:
        pop the front spec of the pool, boot it, start it and await it. */
    method Grow(role: Role, o: Observation) returns (spec: Spec)
      requires Valid() && kind == ClusterKind && role != Standalone && PoolOf(freeCores, freeReplicas, role) != []
      modifies this
      ensures Valid() && routing == old(routing)
      ensures spec == old(PoolOf(freeCores, freeReplicas, role))[0]
      ensures Grown(old(machines), machines, spec)
      ensures fresh(machines[|old(machines)|].machine)
      ensures machines[|old(machines)|].machine.ready == NextReadiness(0, o)
      ensures PoolOf(freeCores, freeReplicas, role) == old(PoolOf(freeCores, freeReplicas, role))[1..]
      ensures PoolOf(freeCores, freeReplicas, Other(role)) == old(PoolOf(freeCores, freeReplicas, Other(role)))
    {
      spec := GrowEntry(role);
      var m := machines[|machines| - 1].machine;
      m.AwaitStarted(o);
    }

    /** Pop the front spec of the pool into a new entry and boot it. */
    method GrowEntry(role: Role) returns (spec: Spec)
      requires Valid() && kind == ClusterKind && role != Standalone && PoolOf(freeCores, freeReplicas, role) != []
      modifies this
      ensures Valid() && routing == old(routing)
      ensures spec == old(PoolOf(freeCores, freeReplicas, role))[0]
      ensures Grown(old(machines), machines, spec)
      ensures fresh(machines[|old(machines)|].machine) && machines[|old(machines)|].machine.ready == 0
      ensures PoolOf(freeCores, freeReplicas, role) == old(PoolOf(freeCores, freeReplicas, role))[1..]
      ensures PoolOf(freeCores, freeReplicas, Other(role)) == old(PoolOf(freeCores, freeReplicas, Other(role)))
    {
      spec := PoolOf(freeCores, freeReplicas, role)[0];
      ghost var before := machines;
      ReserveNext(role);
      ghost var reserved := machines;
      BootMachines(reserved);
      GrownFromBoot(before, reserved, machines, spec);
    }

    /** `_stop_machine` for the entry at `index` (the position of its spec
        among the keys): the entry leaves `machines` and its spec goes to the
        end of its own pool. The minimum core count is not checked. */
    method StopMachine(index: nat)
      requires Valid() && kind == ClusterKind && index < |machines|
      modifies this
      ensures Valid() && routing == old(routing)
      ensures machines == old(machines[..index] + machines[index + 1..])
      ensures old(machines[index].spec.role) != Standalone
      ensures old(machines[index].spec.role) == Core ==>
        freeCores == old(freeCores) + [old(machines[index].spec)] && freeReplicas == old(freeReplicas)
      ensures old(machines[index].spec.role) == Replica ==>
        freeReplicas == old(freeReplicas) + [old(machines[index].spec)] && freeCores == old(freeCores)
    {
      var spec := machines[index].spec;
      ghost var slots, cores, replicas := machines, freeCores, freeReplicas;
      machines := machines[..index] + machines[index + 1..];
      if spec.role == Core {
        freeCores := freeCores + [spec];
      } else {
        freeReplicas := freeReplicas + [spec];
      }
      StopKeepsLayout(name, slots, cores, replicas, coreTable, replicaTable, index, machines, freeCores, freeReplicas);
      IssuedRemove(slots, index, image, auth);
    }

    /** `console_remove name`: every entry that matches, in order over a
        snapshot of `machines`, is stopped; if none matched, a not-found line
        is written. */
    method Remove(name: string) returns (lines: seq<string>)
      requires Valid() && kind == ClusterKind
      modifies this
      ensures Valid() && routing == old(routing)
      ensures machines == Kept(old(machines), name, old(routing))
      ensures freeCores == old(freeCores) + SpecsOfRole(Removed(old(machines), name, old(routing)), Core)
      ensures freeReplicas == old(freeReplicas) + SpecsOfRole(Removed(old(machines), name, old(routing)), Replica)
      ensures lines == if Removed(old(machines), name, old(routing)) == [] then NotFound(name) else []
    {
      var snapshot := machines;
      ghost var cores0, replicas0 := freeCores, freeReplicas;
      var found := 0;
      var i := 0;
      RemoveStart(snapshot, name, routing, cores0, replicas0);
      while i < |snapshot|
        invariant Valid() && kind == ClusterKind && routing == old(routing)
        invariant RemoveProgress(snapshot, i, name, routing, machines, freeCores, freeReplicas, cores0, replicas0)
        invariant found == |Removed(snapshot[..i], name, routing)|
      {
        var hit := Visit(snapshot, i, name, cores0, replicas0);
        if hit {
          found := found + 1;
        }
        i := i + 1;
      }
      RemoveDone(snapshot, i, name, routing, machines, freeCores, freeReplicas, cores0, replicas0);
      lines := if found == 0 then NotFound(name) else [];
    }

    /** One turn of the loop in `console_remove`: the snapshot's entry at
        `i` is stopped if it matches. `cores0` and `replicas0` are the pools
        before the loop. */
    method Visit(snapshot: seq<Slot>, i: nat, name: string, ghost cores0: seq<Spec>, ghost replicas0: seq<Spec>)
      returns (hit: bool)
      requires Valid() && kind == ClusterKind && i < |snapshot|
      requires RemoveProgress(snapshot, i, name, routing, machines, freeCores, freeReplicas, cores0, replicas0)
      modifies this
      ensures Valid() && kind == ClusterKind && routing == old(routing)
      ensures hit == RemoveMatches(name, snapshot[i], routing)
      ensures RemoveProgress(snapshot, i + 1, name, routing, machines, freeCores, freeReplicas, cores0, replicas0)
      ensures |Removed(snapshot[..i + 1], name, routing)| == |Removed(snapshot[..i], name, routing)| + if hit then 1 else 0
    {
      ghost var before, fc, fr := machines, freeCores, freeReplicas;
      hit := RemoveMatches(name, snapshot[i], routing);
      if hit {
        VisitPosition(snapshot, i, name, routing, machines, freeCores, freeReplicas, cores0, replicas0);
        StopMachine(|Kept(snapshot[..i], name, routing)|);
      }
      VisitStep(snapshot, i, name, routing, before, fc, fr, machines, freeCores, freeReplicas, cores0, replicas0);
    }

    // -------------------------------------------------------------------------
    // Console commands that only read

    /** `console_list`: one row per entry, in order. */
    method List() returns (rows: seq<Row>)
      requires WellFormedSpecs(SpecsOf(machines))
      ensures |rows| == |machines| && forall i :: 0 <= i < |machines| ==> rows[i] == ListRow(machines[i], routing)
      ensures routing.None? ==> forall i :: 0 <= i < |rows| ==> rows[i].roles == "?"
      ensures forall i :: 0 <= i < |rows| ==> rows[i].fqName == FqName(machines[i].spec)
      ensures forall i :: 0 <= i < |rows| && machines[i].spec.role != Standalone ==>
        rows[i].mode == ForcedMode(machines[i].spec.role).value
    {
      assert forall i :: 0 <= i < |machines| ==> SpecsOf(machines)[i] == machines[i].spec;
      rows := [];
      var i := 0;
      while i < |machines|
        invariant 0 <= i <= |machines| && |rows| == i
        invariant forall k :: 0 <= k < i ==> rows[k] == ListRow(machines[k], routing)
      {
        rows := rows + [ListRow(machines[i], routing)];
        i := i + 1;
      }
    }

    /** The search `console_ping` and `console_logs` share: the machines of
        the entries named by the argument ("a" when there is none), and a
        not-found line when there are none. */
    method Targets(args: seq<string>) returns (name: string, targets: seq<Machine?>, lines: seq<string>)
      ensures name == if |args| > 1 then args[1] else "a"
      ensures targets == MachinesOf(NamedSlots(machines, name))
      ensures lines == if targets == [] then NotFound(name) else []
    {
      name := if |args| > 1 then args[1] else "a";
      targets := [];
      var found := 0;
      var i := 0;
      while i < |machines|
        invariant 0 <= i <= |machines|
        invariant targets == MachinesOf(NamedSlots(machines[..i], name)) && found == |targets|
      {
        assert machines[..i + 1][..i] == machines[..i];
        if Named(machines[i], name) {
          targets := targets + [machines[i].machine];
          found := found + 1;
        }
        i := i + 1;
      }
      assert machines[..i] == machines;
      lines := if found == 0 then NotFound(name) else [];
    }
  }

  /** A server name of one character that is neither "r" nor "w" (the
      words `rm` matches against the routing roles). */
  predicate PlainName(n: string) {
    |n| == 1 && n != "r" && n != "w"
  }

  /** The two tables as the cluster constructor allocates them. */
  ghost predicate AllocatedTables(coreTable: seq<Spec>, replicaTable: seq<Spec>, serviceName: string) {
    && Tables(coreTable, replicaTable, serviceName)
    && (forall i :: 0 <= i < |coreTable| ==> PlainName(coreTable[i].name))
    && (forall i :: 0 <= i < |replicaTable| ==> PlainName(replicaTable[i].name))
  }

  /** The tables the cluster constructor allocates have the shape the
      service relies on. */
  lemma InitialTables(serviceName: string, boltBase: int, httpBase: int, nCores: nat, config: Dict)
    requires Distinct(config)
    ensures AllocatedTables(CoreSpecs(serviceName, boltBase, httpBase, nCores, config),
                            ReplicaSpecs(serviceName, boltBase, httpBase, config), serviceName)
  {
    AllocationDisjoint(serviceName, boltBase, httpBase, nCores, config);
  }

  /** Before any reservation every slot is free. */
  lemma InitialPartition(cores: seq<Spec>, replicas: seq<Spec>)
    requires forall i :: 0 <= i < |cores| ==> cores[i].role == Core
    requires forall i :: 0 <= i < |replicas| ==> replicas[i].role == Replica
    ensures Partitioned([], cores, replicas, cores, replicas)
  {
    SpecsOfRoleUniform([], Core);
    SpecsOfRoleUniform([], Replica);
    SpecsOfRoleUniform([], Standalone);
  }

  /** The specs of both tables are well formed. */
  lemma InitialSpecs(serviceName: string, boltBase: int, httpBase: int, nCores: nat, config: Dict)
    requires Distinct(config)
    ensures WellFormedSpecs(CoreSpecs(serviceName, boltBase, httpBase, nCores, config))
    ensures WellFormedSpecs(ReplicaSpecs(serviceName, boltBase, httpBase, config))
  {
    forall i | 0 <= i < MaxCores {
      CoreSpecsConfig(serviceName, boltBase, httpBase, nCores, config, i);
    }
    forall i | 0 <= i < MaxReplicas {
      ReplicaSpecsConfig(serviceName, boltBase, httpBase, config, i);
    }
  }

  /** The core entries of a fresh reservation are the reserved core
      specs. */
  lemma ReservationCores(cores: seq<Spec>, replicas: seq<Spec>)
    requires forall i :: 0 <= i < |cores| ==> cores[i].role == Core
    requires forall i :: 0 <= i < |replicas| ==> replicas[i].role == Replica
    ensures SpecsOfRole(Reserved(cores + replicas), Core) == cores
    ensures DiscoveryMembers(Reserved(cores + replicas)) == Join(DiscoveryAddresses(cores), ',')
  {
    ReservedConcat(cores, replicas);
    SpecsOfRoleConcat(Reserved(cores), Reserved(replicas), Core);
    SpecsOfRoleUniform(Reserved(cores), Core);
    SpecsOfRoleUniform(Reserved(replicas), Core);
    assert SpecsOf(Reserved(cores)) == cores;
  }

  // ---------------------------------------------------------------------------
  // What a valid service guarantees

  /** The pool invariant: a cluster's core entries and free core specs
      together are its 7 core slots, and likewise for its 10 replica slots. */
  lemma PoolInvariant(s: Service)
    requires s.Valid() && s.kind == ClusterKind
    ensures |SpecsOfRole(s.machines, Core)| + |s.freeCores| == MaxCores
    ensures |SpecsOfRole(s.machines, Replica)| + |s.freeReplicas| == MaxReplicas
  {
    PoolSizes(s.machines, s.freeCores, s.freeReplicas, s.coreTable, s.replicaTable);
  }

  /** No two entries of a cluster share a name, a bolt port or an http
      port, and every entry belongs to the service. */
  lemma EntriesDisjoint(s: Service)
    requires s.Valid() && s.kind == ClusterKind
    ensures SpecsDisjoint(SpecsOf(s.machines))
    ensures forall i :: 0 <= i < |s.machines| ==>
      s.machines[i].spec.serviceName == s.name && |s.machines[i].spec.name| == 1
    ensures forall i :: 0 <= i < |s.machines| ==> s.machines[i].spec.name !in {"r", "w"}
  {
    PartitionedEntriesDisjoint(s.machines, s.freeCores, s.freeReplicas, s.coreTable, s.replicaTable);
    var all := s.coreTable + s.replicaTable;
    forall i | 0 <= i < |s.machines|
      ensures s.machines[i].spec.serviceName == s.name && |s.machines[i].spec.name| == 1
      ensures s.machines[i].spec.name !in {"r", "w"}
    {
      var k :| 0 <= k < |all| && Blanks(all)[k] == Blank(s.machines[i].spec);
      if k < MaxCores {
        assert all[k] == s.coreTable[k];
      } else {
        assert all[k] == s.replicaTable[k - MaxCores];
      }
    }
  }

  /** `ping`, `logs` and `rm <name>` find at most one entry of a cluster by
      name: names and fq names of distinct entries never coincide. */
  lemma NamesPickOne(s: Service, name: string)
    requires s.Valid() && s.kind == ClusterKind
    ensures forall i, j :: 0 <= i < j < |s.machines| ==>
      !(Named(s.machines[i], name) && Named(s.machines[j], name))
  {
    EntriesDisjoint(s);
    forall i, j | 0 <= i < j < |s.machines| && Named(s.machines[i], name)
      ensures !Named(s.machines[j], name)
    {
      var x, y := s.machines[i].spec, s.machines[j].spec;
      assert SpecsOf(s.machines)[i] == x && SpecsOf(s.machines)[j] == y;
      if name == FqName(x) && name == FqName(y) {
        FqNameInjective(x, y);
      }
    }
  }

  /** Before routing information is obtained, `rm r` and `rm w` match no
      entry of a cluster: no server is named "r" or "w". */
  lemma RoleRemovalBeforeRouting(s: Service, name: string)
    requires s.Valid() && s.kind == ClusterKind && s.routing.None? && name in {"r", "w"}
    ensures Kept(s.machines, name, s.routing) == s.machines
    ensures Removed(s.machines, name, s.routing) == []
  {
    EntriesDisjoint(s);
    NoMatchKeepsAll(s.machines, name, s.routing);
  }

  /** `console_remove` does not re-check the minimum of 3 cores: in a
      valid cluster with exactly three cores, removing a core by name
      leaves fewer than three. */
  lemma RemoveIgnoresMinimum(s: Service, i: nat)
    requires s.Valid() && s.kind == ClusterKind && |SpecsOfRole(s.machines, Core)| == MinCores
    requires i < |s.machines| && s.machines[i].spec.role == Core
    ensures |SpecsOfRole(Kept(s.machines, s.machines[i].spec.name, s.routing), Core)| < MinCores
  {
    var name := s.machines[i].spec.name;
    KeptRemovedExact(s.machines, name, s.routing);
    assert s.machines[i] in Removed(s.machines, name, s.routing);
    RoleMember(Removed(s.machines, name, s.routing), s.machines[i], Core);
    KeptRemovedRoles(s.machines, name, s.routing, Core);
  }


  /** Every container of a valid service runs the service's image with its
      credentials: its environment is built from them and its entry's spec,
      and unless a setting named `AUTH` overrides it, `NEO4J_AUTH` holds the
      service's user and password. */
  lemma ContainerEnvironment(s: Service, i: nat)
    requires s.Valid() && i < |s.machines|
    ensures s.machines[i].machine != null && s.machines[i].machine.image == s.image
    ensures s.machines[i].machine.environment ==
            ApplyConfig(BaseEnvironment(Some(s.auth), s.image), s.machines[i].spec.config)
    ensures Get(s.machines[i].spec.config, "AUTH").None? ==>
      && "NEO4J_AUTH" in s.machines[i].machine.environment
      && s.machines[i].machine.environment["NEO4J_AUTH"] == s.auth.user + "/" + s.auth.password
  {
    var config := s.machines[i].spec.config;
    if Get(config, "AUTH").None? {
      forall j | 0 <= j < |config|
        ensures EnvKey(config[j].key) != "NEO4J_AUTH"
      {
        if EnvKey(config[j].key) == "NEO4J_AUTH" {
          AuthVariable(config[j].key);
        }
      }
      BaseVariableKept(BaseEnvironment(Some(s.auth), s.image), config, "NEO4J_AUTH");
    }
  }

  /** A cluster's routers are its core machines, one per core entry, in
      order; `env()` lists their bolt addresses. */
  lemma ClusterEnv(s: Service)
    requires s.Valid() && s.kind == ClusterKind
    ensures |s.Routers()| == |SpecsOfRole(s.machines, Core)|
    ensures forall i :: 0 <= i < |s.Routers()| ==>
      s.Routers()[i] != null && s.Routers()[i].spec == SpecsOfRole(s.machines, Core)[i]
    ensures s.Env().Some?
    ensures forall i :: 0 <= i < |s.Routers()| ==>
      s.Env().value.boltServerAddresses[i] == Address("localhost", SpecsOfRole(s.machines, Core)[i].boltPort)
  {
    MachinesOfRoleSpecs(s.machines, Core);
  }

  /** Before routing information is obtained, a standalone service routes
      through its single machine, on its bolt port. */
  lemma StandaloneEnv(s: Service)
    requires s.Valid() && s.kind == StandaloneKind && s.routing.None?
    ensures s.Routers() == [s.machines[0].machine]
    ensures s.Env().Some? && s.Env().value.boltServerAddresses == [Address("localhost", s.machines[0].spec.boltPort)]
  {
    assert MachinesOf(s.machines) == [s.machines[0].machine];
  }

  // ---------------------------------------------------------------------------
  // Opening a service

  /** Why `Neo4jService(...)` refuses to build a service. */
  datatype OpenError = AuthUserNotNeo4j | BadShape(error: ShapeError)

  const StandaloneImage := "neo4j:latest"
  const ClusterImage := "neo4j:enterprise"

  /** Python's `s or fallback` on strings. */
  function OrElse(s: string, fallback: string): string {
    if s == "" then fallback else s
  }

  /** `Neo4jService(name, image, auth, n_cores, n_replicas, bolt_port,
      http_port, config)`: a cluster when `n_cores` is non-zero, else a
      standalone service. The generated name and auth that stand in for
      `uuid4()` and `make_auth()` are inputs. */
  method Open(name: string, generatedName: string, image: string, auth: Option<Auth>, madeAuth: Auth,
              nCores: int, nReplicas: int, boltPort: int, httpPort: int, config: Dict)
    returns (r: Result<Service, OpenError>)
    requires Distinct(config)
    ensures auth.GetOr(madeAuth).user != "neo4j" ==> r == Failure(AuthUserNotNeo4j)
    ensures auth.GetOr(madeAuth).user == "neo4j" && IsCluster(nCores) && CheckShape(nCores, nReplicas).Failure? ==>
      r == Failure(BadShape(CheckShape(nCores, nReplicas).error))
    ensures r.Success? <==>
      auth.GetOr(madeAuth).user == "neo4j" && (IsCluster(nCores) ==> CheckShape(nCores, nReplicas).Success?)
    ensures r.Success? ==>
      && fresh(r.value) && r.value.Valid() && r.value.routing.None?
      && r.value.name == OrElse(name, generatedName) && r.value.auth == auth.GetOr(madeAuth)
      && r.value.kind == (if IsCluster(nCores) then ClusterKind else StandaloneKind)
      && r.value.image == OrElse(image, if IsCluster(nCores) then ClusterImage else StandaloneImage)
    ensures r.Success? && !IsCluster(nCores) ==>
      && |r.value.machines| == 1
      && r.value.machines[0].machine != null && fresh(r.value.machines[0].machine)
      && r.value.machines[0].machine.ready == 0
      && r.value.machines[0].spec == NewSpec("a", r.value.name, OrDefault(boltPort, StandaloneBoltPort),
                                             OrDefault(httpPort, StandaloneHttpPort), Standalone, config)
    ensures r.Success? && IsCluster(nCores) ==>
      && |SpecsOfRole(r.value.machines, Core)| == CheckShape(nCores, nReplicas).value.cores
      && |SpecsOfRole(r.value.machines, Replica)| == CheckShape(nCores, nReplicas).value.replicas
  {
    var theName := OrElse(name, generatedName);
    var theAuth := auth.GetOr(madeAuth);
    if theAuth.user != "neo4j" {
      return Failure(AuthUserNotNeo4j);
    }
    if IsCluster(nCores) {
      var shape := CheckShape(nCores, nReplicas);
      if shape.Failure? {
        return Failure(BadShape(shape.error));
      }
      var service := new Service.ClusterService(theName, OrElse(image, ClusterImage), theAuth, shape.value,
                                                boltPort, httpPort, config);
      PoolInvariant(service);
      r := Success(service);
    } else {
      var service := new Service.StandaloneService(theName, OrElse(image, StandaloneImage), theAuth,
                                                   boltPort, httpPort, config);
      r := Success(service);
    }
  }

  // ---------------------------------------------------------------------------
  // Adding a server and stopping it again

  /** Putting back a spec that only differs from the popped front in its
      config restores the pool's slots, rotated by one. */
  lemma RotatedBlanks(pool: seq<Spec>, x: Spec)
    requires pool != [] && Blank(x) == Blank(pool[0])
    ensures Blanks(pool[1..] + [x]) == Blanks(pool[1..] + [pool[0]])
    ensures multiset(Blanks(pool[1..] + [x])) == multiset(Blanks(pool))
  {
    BlanksConcat(pool[1..], [x]);
    BlanksConcat(pool[1..], [pool[0]]);
    BlanksConcat([pool[0]], pool[1..]);
    assert pool == [pool[0]] + pool[1..];
  }

  /** `add-core` (or `add-replica`) below the maximum, then stopping the
      server it added: the entries are as before, and the pool holds the same
      slots again, the popped one moved from the front to the back (its
      config now carries the discovery members it was booted with). */
  method AddThenStop(s: Service, role: Role, o: Observation)
    requires s.Valid() && s.kind == ClusterKind && role != Standalone
    requires |SpecsOfRole(s.machines, role)| < MaxOf(role)
    modifies s
    ensures s.Valid() && s.machines == old(s.machines) && s.routing == old(s.routing)
    ensures old(PoolOf(s.freeCores, s.freeReplicas, role)) != []
    ensures Blanks(PoolOf(s.freeCores, s.freeReplicas, role)) ==
      Blanks(old(PoolOf(s.freeCores, s.freeReplicas, role))[1..] + [old(PoolOf(s.freeCores, s.freeReplicas, role))[0]])
    ensures multiset(Blanks(PoolOf(s.freeCores, s.freeReplicas, role))) ==
      multiset(Blanks(old(PoolOf(s.freeCores, s.freeReplicas, role))))
    ensures PoolOf(s.freeCores, s.freeReplicas, Other(role)) == old(PoolOf(s.freeCores, s.freeReplicas, Other(role)))
  {
    ghost var pool := PoolOf(s.freeCores, s.freeReplicas, role);
    var before := s.machines;
    var line := s.Add(role, o);
    GrownThenStopped(before, s.machines, pool[0]);
    ghost var added := s.machines[|before|];
    s.StopMachine(|before|);
    RotatedBlanks(pool, added.spec);
  }
}
