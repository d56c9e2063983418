# Neo4j service topologies in Dafny

This project models the part of boltkit that builds and changes Neo4j
test topologies in Docker (`boltkit/server/__init__.py`). The model covers:

- machine specs: a name, a service name, two ports and an ordered config
  dict laid over class defaults;
- machines: one per container, with an environment derived from the spec's
  config and a readiness flag that `await_started` updates;
- the standalone service: one machine named `a`;
- the causal cluster: seven core and ten read-replica slots allocated up
  front, of which the requested number are booted and the rest kept in two
  free pools;
- the routing cache filled from a `getRoutingTable` result;
- the interactive console and its commands (`env`, `exit`, `help`, `ls`,
  `ping`, `logs`, `rt`, and for a cluster `add-core`, `add-replica` and `rm`).

Modules:

- `Wrappers`: `Option` and `Result`.
- `Settings`: the config dict as a sequence of entries with distinct keys.
  `Get`, `Put` and `Update` follow Python's dict semantics, including
  insertion order.
- `MachineSpecs`: `Neo4jMachineSpec` and its core and replica subclasses
  (source lines 43-98).
- `Machines`: `Neo4jMachine`. It covers the environment translation
  `NEO4J_` + escaped key, and the readiness outcome of `await_started`
  (source lines 101-182). A machine's `environment` is a constant defined
  from its credentials, image and spec; the constructor also runs the
  source's loop (`BuildEnvironment`) and proves that it gives that value.
- `Allocation`: the cluster constructor's count checks and its two spec
  tables (source lines 505-565).
- `Routing`: the choice of one address list per role from a routing record
  (source lines 331-339).
- `Topology`: the entries of `machines` as (spec, machine) slots. It also
  holds the free-pool partition, the `causal_clustering.initial_discovery_members`
  setting, address lookup, and the matching rules of `ping`, `logs` and `rm`.
- `Services`: `Neo4jService`, `Neo4jStandaloneService` and
  `Neo4jClusterService` as one class `Service` with a kind tag. Its
  invariant `Valid` says four things. Every slot of the two tables is
  either an entry or free, exactly once. Entries never clash in name or
  port. Every entry has its own machine, built from that entry's spec.
  Every machine runs the service's image with the service's credentials.
- `Console`: the dispatcher and the commands. The read and write callbacks
  become a sequence of inputs and a sequence of outcomes.

Docker and Bolt are not part of this model. What they would report is an
input:

- an `Observation` of a container's status and ping result;
- the records a routing query returns.

The model keeps these behaviours of the code:

- Routing addresses that match no tracked machine are kept as `None`
  entries in the cached lists, not dropped.
  - `env` fails when a router is `None`.
  - `rt` fails when any entry of the new cache is `None`.
  - For a standalone service whose cached routers hold a `None`, the next
    `rt` fails before any query is sent: collecting the router addresses
    reads `None.addresses`. The cache stays as it was.
- `rm` does not enforce the minimum number of cores.
- The `_update_routing_info` code takes the first record and ignores any
  others, so more than one result row is not an error.

## Model

| member | source | states |
|---|---|---|
| Settings.Get | boltkit/server/__init__.py:427 | `dict.get`: no value exactly when no entry has the key; otherwise the value of that key's entry |
| Settings.Put | boltkit/server/__init__.py:61 | `d[k] = v`: an existing key keeps its position and takes the new value, a new key goes at the end; afterwards `k` maps to `v` and every other key maps to what it did |
| Settings.Update | boltkit/server/__init__.py:62-63 | `dict.update`: keys stay distinct, and each key maps to the other dict's value if it has one, else to the original value |
| MachineSpecs.BaseConfig | boltkit/server/__init__.py:47-53 | the class defaults have distinct keys |
| MachineSpecs.NatToString | boltkit/server/__init__.py:61 | decimal rendering: at least one digit, only digits, one digit exactly for numbers below ten |
| MachineSpecs.NatToStringInjective | boltkit/server/__init__.py:61 | different numbers are written differently, so advertised addresses of different ports differ |
| MachineSpecs.IntToStringInjective | boltkit/server/__init__.py:61 | the same for negative port numbers |
| MachineSpecs.RoleOverrides | boltkit/server/__init__.py:85-98 | the core spec forces `dbms.mode` to `CORE` and the replica spec to `READ_REPLICA` in the caller's config; a standalone spec adds nothing |
| MachineSpecs.NewSpec | boltkit/server/__init__.py:55-63 | a new spec keeps the given name, service name, role and ports, and its config has distinct keys |
| MachineSpecs.NewSpecConfig | boltkit/server/__init__.py:55-98 | each setting of a new spec comes, highest priority first, from the mode its role forces, then the caller's config, then the bolt advertised address `localhost:<bolt port>`, then the class defaults |
| MachineSpecs.FqName | boltkit/server/__init__.py:68-70 | the spec's name, a dot, then the service name |
| MachineSpecs.DiscoveryAddress | boltkit/server/__init__.py:72-74 | the fq name followed by `:5000` |
| MachineSpecs.BoltAddress | boltkit/server/__init__.py:80-82 | `localhost` at the spec's bolt port |
| MachineSpecs.FqNameInjective | boltkit/server/__init__.py:65-70 | within one service, the fully-qualified name that hashes a spec determines its short name |
| MachineSpecs.DiscoveryAddressIsFqName | boltkit/server/__init__.py:68-75 | the discovery address is the fully-qualified name on port 5000 |
| Machines.EnvKey | boltkit/server/__init__.py:124 | `NEO4J_` followed by the key with each `_` doubled, then each `.` turned into `_` |
| Machines.EscapeByCharacters | boltkit/server/__init__.py:123-124 | the two `str.replace` passes equal one per-character escape (`_` to `__`, `.` to `_`) |
| Machines.UnescapeEscape | boltkit/server/__init__.py:123-124 | for a key without `._` or `..`, the escaped key reads back to the key |
| Machines.EnvKeyInjective | boltkit/server/__init__.py:123-124 | two such keys never share an environment variable |
| Machines.EnvKeyCollision | boltkit/server/__init__.py:123-124 | without that restriction they can: `a._b` and `a_.b` both become `NEO4J_a___b` |
| Machines.BaseEnvironment | boltkit/server/__init__.py:118-122 | `NEO4J_AUTH` as `user/password` when there are credentials, and the licence variable `yes` when the image name contains `enterprise` |
| Machines.ApplyConfig | boltkit/server/__init__.py:123-124 | the settings written on top in order, each under its translated key; a later write to the same variable replaces an earlier one |
| Machines.BuildEnvironment | boltkit/server/__init__.py:118-124 | the environment is the credentials and licence variables, with the config entries translated on top in order |
| Machines.ConfigInEnvironment | boltkit/server/__init__.py:118-124 | every setting reaches the container under its translated name, with its value |
| Machines.EnvironmentKeys | boltkit/server/__init__.py:118-124 | the variables are exactly the base ones plus one translated name per config entry |
| Machines.NextReadiness | boltkit/server/__init__.py:161-182 | a container that is not running keeps its readiness; a running one becomes 1 when the ping succeeds, -1 when it failed and the container exited, and keeps its readiness otherwise |
| Machines.ReadinessOfNewMachine | boltkit/server/__init__.py:161-182 | a fresh machine becomes ready (1) exactly when its container runs and answers a ping; it becomes failed (-1) exactly when it runs, misses the ping and has then exited; otherwise it stays unknown (0) |
| Machines.Machine.constructor | boltkit/server/__init__.py:109-124 | a new machine holds its spec, image and auth, starts with readiness 0, and has the environment above |
| Machines.BaseVariableKept | boltkit/server/__init__.py:118-124 | a variable that no setting translates to keeps the value set before the config loop |
| Machines.EscapeWithoutUnderscore | boltkit/server/__init__.py:124 | an escaped key without an underscore is the key itself |
| Machines.AuthVariable | boltkit/server/__init__.py:119-124 | only a setting named `AUTH` lands on `NEO4J_AUTH` |
| Machines.Machine.AwaitStarted | boltkit/server/__init__.py:161-182 | one wait changes readiness only as the observation dictates; a failed ping that did not exit keeps the earlier value |
| Allocation.PortRange | boltkit/server/__init__.py:520-522 | `range(base, base + count)`: count ports, strictly increasing, exactly those in the half-open interval |
| Allocation.RoundUpTo10 | boltkit/server/__init__.py:554-555 | the first multiple of ten at or after the given port |
| Allocation.CoreConfig | boltkit/server/__init__.py:547-550 | the caller's config with the formation size set to the given core count and the runtime size set to the minimum, 3 |
| Allocation.CoreSpecs | boltkit/server/__init__.py:539-553 | seven core specs named `a`..`g`, of this service, on consecutive bolt and http ports from the bases |
| Allocation.ReplicaSpecs | boltkit/server/__init__.py:554-565 | ten replica specs named `0`..`9`, on consecutive ports from the rounded-up end of the core ranges |
| Allocation.CoreSpecsConfig | boltkit/server/__init__.py:541-553 | each core spec is in `CORE` mode, with the formation size set to the requested core count and the runtime minimum set to 3, in decimal |
| Allocation.ReplicaSpecsConfig | boltkit/server/__init__.py:556-565 | each replica spec is in `READ_REPLICA` mode |
| Allocation.IndexedSlotsDisjoint | boltkit/server/__init__.py:539-565 | specs named and numbered by index never share a name, a bolt port or an http port, and every replica port lies above every core port |
| Allocation.AllocationDisjoint | boltkit/server/__init__.py:539-565 | the two allocated tables have that shape |
| Allocation.IsCluster | boltkit/server/__init__.py:214-217 | a non-zero core count selects the cluster service; zero, which also stands for a missing count, selects the standalone one |
| Allocation.CheckShape | boltkit/server/__init__.py:530-537 | after `n or minimum`, the shape is accepted exactly when 3..7 cores and 0..10 replicas were asked for; the core check comes first |
| Routing.LastOfRole | boltkit/server/__init__.py:331-339 | the addresses of the last server list with that role, or none when no list has it |
| Routing.LastOfRoleAbsent | boltkit/server/__init__.py:331-339 | a role with no entry in the record has no addresses |
| Routing.LastOfRoleWins | boltkit/server/__init__.py:331-339 | when a role appears several times, the last entry's addresses win |
| Routing.SelectRoles | boltkit/server/__init__.py:328-339 | the loop leaves routers, readers and writers set to the last `ROUTE`, `READ` and `WRITE` entries |
| Topology.MachinesOfRole | boltkit/server/__init__.py:588-596 | `cores` and `replicas` have one machine per entry of the role |
| Topology.MachinesOfRoleSpecs | boltkit/server/__init__.py:588-600 | when every entry is booted, the i-th machine of a role runs the i-th spec of that role |
| Topology.SplitJoin | boltkit/server/__init__.py:584 | a comma-joined list of parts without commas splits back into the parts |
| Topology.DiscoveryMembers | boltkit/server/__init__.py:579-584 | the discovery addresses of the core entries, in entry order, joined by commas |
| Topology.DiscoveryMembersReadBack | boltkit/server/__init__.py:579-585 | the discovery-members setting reads back as one discovery address per core entry, in order |
| Topology.SameBlanksMembers | boltkit/server/__init__.py:579-585 | the setting depends only on the entries' names and ports, not on their configs |
| Topology.Stamp | boltkit/server/__init__.py:583-585 | stamping sets the discovery-members setting and leaves every other setting, the name and the ports as they were |
| Topology.MachineAt | boltkit/server/__init__.py:249-253 | `_get_machine_by_address`: `None` when no entry has the bolt address; a machine found belongs to an entry with that address |
| Topology.MachineAtFirst | boltkit/server/__init__.py:249-253 | the first entry with the address is the one whose machine is found |
| Topology.Resolve | boltkit/server/__init__.py:340-342 | each routing address becomes the machine found for it, position by position; unmatched addresses stay as `None` |
| Topology.PoolSizes | boltkit/server/__init__.py:567-574 | entries of a role plus that role's free specs add up to the table size |
| Topology.PartitionedEntriesDisjoint | boltkit/server/__init__.py:539-574 | every entry is a slot of the tables, and no two entries share a name or a port |
| Topology.PartitionedAdd | boltkit/server/__init__.py:614-615 | taking the head of a role's pool as a new entry keeps every slot either an entry or free |
| Topology.PartitionedRemove | boltkit/server/__init__.py:638-645 | stopping an entry and returning its spec to its role's pool keeps that partition |
| Topology.PartitionedSameBlanks | boltkit/server/__init__.py:578-586 | rewriting entries' configs keeps that partition |
| Topology.RemoveMatches | boltkit/server/__init__.py:655-665 | `r` matches a cached reader and `w` a cached writer, only once routing is cached; any name matches an entry with that name or fq name |
| Topology.KeptRemovedSizes | boltkit/server/__init__.py:654-665 | the entries kept and those removed by `rm` together number as many as before |
| Topology.KeptRemovedExact | boltkit/server/__init__.py:654-665 | `rm` keeps exactly the entries that do not match its argument and removes exactly those that do |
| Topology.RemoveByRole | boltkit/server/__init__.py:655-662 | once routing is cached, `rm r` removes every entry whose machine is a cached reader, and `rm w` every cached writer |
| Topology.KeptRemovedRoles | boltkit/server/__init__.py:654-665 | the entries of each role are split between those kept and those removed |
| Topology.NamedSlotsExact | boltkit/server/__init__.py:441-444 | `ping` and `logs` act on exactly the entries whose short or fully-qualified name is the argument |
| Topology.RemoveStep | boltkit/server/__init__.py:654-665 | one more entry of the snapshot extends either the kept or the removed list |
| Topology.NoMatchKeepsAll | boltkit/server/__init__.py:655-667 | when no entry matches, `rm` keeps everything and removes nothing |
| Services.StandaloneLayout | boltkit/server/__init__.py:491-502 | one booted entry `a` with its own machine satisfies the service invariant |
| Services.ReserveKeepsLayout | boltkit/server/__init__.py:569-574 | reserving the head of a pool keeps the service invariant |
| Services.BootKeepsLayout | boltkit/server/__init__.py:581-586 | giving a reserved entry a fresh machine for its stamped spec keeps the invariant |
| Services.StopKeepsLayout | boltkit/server/__init__.py:638-645 | removing an entry and freeing its spec keeps the invariant and leaves every entry booted |
| Services.GrownFromBoot | boltkit/server/__init__.py:614-616 | reserving and then booting everything grows the entries by exactly the one new, booted spec |
| Services.GrownThenStopped | boltkit/server/__init__.py:614-616 | removing that new entry again gives back the earlier entries |
| Services.ReservedUpToStep | boltkit/server/__init__.py:568-574 | each turn of a reservation loop moves one more spec from the pool to the entries |
| Services.RemoveStart | boltkit/server/__init__.py:652-654 | before the `rm` loop, nothing is removed and the pools are as they were |
| Services.RemoveDone | boltkit/server/__init__.py:652-667 | after the loop, the entries are those kept, and the specs of those removed were appended to their pools in order |
| Services.BootedUpToStep | boltkit/server/__init__.py:581-586 | each turn of `_boot_machines` boots one reserved entry or leaves a booted one alone |
| Services.BootedUpToAll | boltkit/server/__init__.py:581-586 | after the loop every entry is booted |
| Services.RouterAddresses | boltkit/server/__init__.py:370-376 | the addresses exist exactly when no router is `None`; then they are the routers' bolt addresses, in order |
| Services.Service.StandaloneService | boltkit/server/__init__.py:484-502 | one fresh machine with readiness 0 for spec `a` on the given or default ports, with no routing cached, under the invariant |
| Services.Service.ClusterService | boltkit/server/__init__.py:524-576 | the two allocated tables, pools without the first n specs, one entry per requested core and replica, every entry booted with the discovery members of the requested cores, under the invariant |
| Services.Service.Populate | boltkit/server/__init__.py:567-576 | reserves the first n cores and replicas in that order, then boots them all with the members of exactly those cores |
| Services.Service.ReserveFirst | boltkit/server/__init__.py:567-574 | appends the first `count` specs of a pool as reserved entries and drops them from that pool alone |
| Services.Service.ReserveNext | boltkit/server/__init__.py:569-570 | appends the head of a pool as a reserved entry and drops it from that pool alone |
| Services.Service.BootMachines | boltkit/server/__init__.py:578-586 | booted entries are kept; every reserved entry gets a machine and the discovery members computed from the entries before the loop; the pools and the routing cache are untouched |
| Services.Service.BootSlot | boltkit/server/__init__.py:582-586 | one reserved entry gets its stamped spec and a new machine with readiness 0, the service's image and credentials, keeping the invariant |
| Services.Service.AwaitStarted | boltkit/server/__init__.py:287-297 | each machine's readiness follows its own observation, and the service is available exactly when all are ready |
| Services.RoutersOf | boltkit/server/__init__.py:255-260 | a standalone service's routers are the cached routers when that list is non-empty, else all its machines; a cluster's are its cores (lines 598-600) |
| Services.Service.Env | boltkit/server/__init__.py:370-376 | `env()` exists exactly when no router is `None`; it has the `user:password` credentials and the routers' bolt addresses in order |
| Services.Launch | boltkit/server/__init__.py:109-124 | a new machine for the spec, with the service's image and credentials and readiness 0 |
| Services.ResolvedCache | boltkit/server/__init__.py:327-343 | routers, readers and writers from the last server list per role of the first record, each address resolved to the entry's machine or None, with the record's ttl |
| Services.Service.UpdateRoutingInfo | boltkit/server/__init__.py:305-343 | a `None` among the current routers fails first; then no records fails; both leave the cache alone. Otherwise the cache holds the machines resolved from the first record's last entry per role, and its TTL |
| Services.Service.Add | boltkit/server/__init__.py:610-636 | below the role's maximum, the head of its pool becomes one new booted entry and the message names it; at the maximum nothing changes and the message says so |
| Services.Service.Grow | boltkit/server/__init__.py:613-618 | the new entry is the pool's head, booted with a fresh machine whose readiness follows the observation; the other pool is untouched |
| Services.Service.GrowEntry | boltkit/server/__init__.py:614-616 | the same before the wait, with readiness 0 |
| Services.Service.StopMachine | boltkit/server/__init__.py:638-645 | the entry leaves `machines`, and its spec goes to the end of its role's pool |
| Services.Service.Remove | boltkit/server/__init__.py:647-667 | the entries are those `rm` keeps; each removed spec is appended to its role's pool; "not found" only when nothing matched |
| Services.Service.Visit | boltkit/server/__init__.py:654-665 | one entry of the snapshot is removed exactly when it matches, and the progress of the loop is kept |
| Services.RolesOf | boltkit/server/__init__.py:415-422 | `?` before routing is known; otherwise `r` for a cached reader followed by `w` for a cached writer |
| Services.ListRow | boltkit/server/__init__.py:423-429 | fq name, bolt port, http port, `dbms.mode` or `SINGLE`, and the roles |
| Services.Service.List | boltkit/server/__init__.py:405-430 | one row per entry with its fully-qualified name, ports, mode (`SINGLE` by default, else the forced mode) and roles (`?` before routing is known) |
| Services.Service.Targets | boltkit/server/__init__.py:432-446 | the name defaults to `a`; the targets are the machines of the matching entries, and "not found" is written only when there are none |
| Services.InitialTables | boltkit/server/__init__.py:539-565 | the allocated tables are disjoint, of this service, with one-letter names other than `r` and `w` |
| Services.InitialPartition | boltkit/server/__init__.py:539-565 | with no entries, every slot of the tables is free |
| Services.InitialSpecs | boltkit/server/__init__.py:539-565 | every allocated spec has distinct keys and its role's forced mode |
| Services.ReservationCores | boltkit/server/__init__.py:567-585 | reserving cores then replicas gives exactly those cores as the discovery members |
| Services.PoolInvariant | boltkit/server/__init__.py:567-574 | in every valid cluster, core entries plus free cores are 7, and replica entries plus free replicas are 10 |
| Services.EntriesDisjoint | boltkit/server/__init__.py:539-565 | entries of a valid cluster never share a name or a port, all belong to the service, and none is named `r` or `w` |
| Services.NamesPickOne | boltkit/server/__init__.py:441-442 | in a valid cluster a name matches at most one entry |
| Services.RoleRemovalBeforeRouting | boltkit/server/__init__.py:655-662 | before routing is known, `rm r` and `rm w` remove nothing |
| Services.RemoveIgnoresMinimum | boltkit/server/__init__.py:647-667 | in any valid cluster with exactly three cores, `rm` of a core's name leaves fewer than the minimum that construction enforces |
| Services.ContainerEnvironment | boltkit/server/__init__.py:109-124 | every container of a valid service runs the service's image, its environment is built from the service's credentials and its entry's settings, and `NEO4J_AUTH` is the service's `user/password` unless a setting `AUTH` overrides it |
| Services.ClusterEnv | boltkit/server/__init__.py:598-600 | a cluster's routers are its cores, so its `env()` always exists and lists the cores' bolt addresses |
| Services.StandaloneEnv | boltkit/server/__init__.py:255-260 | before routing is known, a standalone service's only router is its one machine |
| Services.Open | boltkit/server/__init__.py:210-234 | `Neo4jService(...)`: a non-`neo4j` user fails, a cluster shape out of bounds fails, and otherwise the kind, name, image and auth follow the defaults, with the requested number of entries per role; a standalone service's one machine is fresh with readiness 0 |
| Services.RotatedBlanks | boltkit/server/__init__.py:643-645 | a spec that returns to the end of its pool leaves the pool rotated by one |
| Services.AddThenStop | boltkit/server/__init__.py:610-645 | adding a server and stopping it again restores the entries and rotates the pool |
| Console.Lookup | boltkit/server/__init__.py:345-354 | the command of each of the seven common words, plus `add-core`, `add-replica` and `rm` for a cluster (lines 602-608); none for any other word |
| Console.Words | boltkit/server/__init__.py:345-354 | the words `help` lists are exactly those the index resolves |
| Console.ClusterExtendsStandalone | boltkit/server/__init__.py:602-608 | a cluster keeps every standalone command and adds exactly `add-core`, `add-replica` and `rm` |
| Console.Classify | boltkit/server/__init__.py:361-368 | an empty line has no command; a command runs exactly when its first word is in the index |
| Console.ShowEnv | boltkit/server/__init__.py:378-382 | `env` shows the environment, or fails when a router is `None` |
| Console.Step | boltkit/server/__init__.py:361-368 | one turn: an empty line escapes the loop, an unknown word writes `ERROR!`, a read-only command shows the state it found and changes nothing, and a changing command does what `Change` states |
| Console.Inspect | boltkit/server/__init__.py:378-477 | the outcomes of `env`, `exit`, `help`, `ls`, `ping` and `logs` |
| Console.Change | boltkit/server/__init__.py:448-461 | `rt` fails on a `None` current router, says it cannot obtain routing for no records, and otherwise caches what the first record resolves to, failing on a `None` entry of the new cache; `add-*` below the maximum grows the entries by the head of the role's pool, booted and awaited, and names it, and at the maximum changes nothing and says so; `rm` without a name fails, and otherwise keeps the unmatched entries, appends the removed specs to their pools and writes "not found" when nothing matched |
| Console.Session | boltkit/server/__init__.py:356-368 | the session starts by showing `env`; each later outcome is the turn `Step` states for the matching input, from the state the previous turn left; it goes on until the inputs run out or a command exits or fails |

## Left out

- Docker, the network and Bolt are not modelled. Container status, ping
  results and routing query rows are inputs. This covers `start`, `stop`,
  `find_and_stop`, `ping`, the log output of `logs`, and the connection
  errors these raise, including a failure of the `rt` query's own
  connection (`Connection.open`), which would end the console loop.
- `__enter__` and `__exit__` are not modelled: they only start, await and
  stop the machines through Docker.
- The thread pool of `_for_each_machine` is a sequential loop over the
  machines. Each unit touches only its own machine, so the result is the
  same.
- The `timeout` arguments and the wall clock are not modelled. A wait is
  one observation.
- The pull-and-retry path of container creation (`create_container`) is not
  modelled.
- `uuid4()` and `make_auth()` are inputs to `Open`, as the generated name
  and the generated auth.
- Services.Open: `resolve_image()` is not modelled. The image is the given
  name or the default, unresolved.
- `repr`, `str(Address)` and `AddressList` formatting are not modelled.
  The model does not produce the exact text of the `rt` output; it keeps
  the cache it would print. `help` outputs the command set, not its layout.
  `ls` leaves out the container id column.
- `shlex.split` of the console input is not modelled: each input arrives
  already split into words.
- Allocation.RoundUpTo10: the replica port bases are `ceil(stop / 10) * 10`
  on floats in the source. The model rounds up with integer arithmetic. The
  two agree for every stop of magnitude at most 2^53, which covers every
  port number. Above that, float rounding can give a base below `stop` (for
  a stop of 36028797018963992 the source gives 36028797018963990), which
  would put the source's replica ports below its core ports, so
  `Allocation.AllocationDisjoint` describes the model and not the source.
- Allocation.CoreConfig: config values are strings in the model. The two
  cluster-size settings, which the source stores as Python ints, are
  rendered in decimal (`NatToString`), as `str` renders them when the
  environment is built.
- The Core and Replica constructors write the mode into the caller's
  config dict (aliasing). The model passes dicts by value, so callers do
  not see that write.
- Services.Service.BootMachines: states freshness and readiness 0 only for
  the last entry (the one `add-core` and `add-replica` boot), not for every
  entry the cluster constructor boots.
- Services.Service.Populate: does not state that the machines it boots are
  fresh.
- Services.Service.ClusterService: does not state that its machines are
  fresh or that their readiness is 0. Distinctness between the machines is
  part of its invariant. So what `await_started` reports right after the
  cluster is built is not determined for a container that is not running.
- Console.Session: `console_index` is a function of the service kind, not
  a stored dict. Commands registered by other code are not modelled.
