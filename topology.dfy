/** The values a service's topology is made of: the ordered `machines`
    entries (a spec and its machine, `null` while the slot is reserved), the
    discovery list stamped into new cores, lookups by address and by name, and
    the facts about the partition of a cluster's slots between `machines` and
    the free pools (boltkit/server/__init__.py, lines 249-253, 578-600 and
    638-667). */
module Topology {
  import opened Wrappers
  import opened Settings
  import opened MachineSpecs
  import opened Machines
  import opened Allocation

  /** One entry of the `machines` dict. */
  datatype Slot = Slot(spec: Spec, machine: Machine?)

  /** `_routers`, `_readers`, `_writers` and `_ttl`, which are always
      assigned together. */
  datatype RoutingCache = RoutingCache(routers: seq<Machine?>, readers: seq<Machine?>,
                                       writers: seq<Machine?>, ttl: int)

  const DiscoveryMembersKey := "causal_clustering.initial_discovery_members"

  function SpecsOf(slots: seq<Slot>): (r: seq<Spec>)
    ensures |r| == |slots| && forall i :: 0 <= i < |slots| ==> r[i] == slots[i].spec
  {
    seq(|slots|, i requires 0 <= i < |slots| => slots[i].spec)
  }

  /** The specs of one role, in `machines` order (`isinstance` filters). */
  function SpecsOfRole(slots: seq<Slot>, role: Role): seq<Spec> {
    if slots == [] then []
    else (if slots[0].spec.role == role then [slots[0].spec] else []) + SpecsOfRole(slots[1..], role)
  }

  /** The `cores` / `replicas` properties: the machines of one role. */
  function MachinesOfRole(slots: seq<Slot>, role: Role): (r: seq<Machine?>)
    ensures |r| == |SpecsOfRole(slots, role)|
  {
    if slots == [] then []
    else (if slots[0].spec.role == role then [slots[0].machine] else []) + MachinesOfRole(slots[1..], role)
  }

  function MachinesOf(slots: seq<Slot>): (r: seq<Machine?>)
    ensures |r| == |slots| && forall i :: 0 <= i < |slots| ==> r[i] == slots[i].machine
  {
    seq(|slots|, i requires 0 <= i < |slots| => slots[i].machine)
  }

  lemma {:induction false} SpecsOfRoleConcat(a: seq<Slot>, b: seq<Slot>, role: Role)
    ensures SpecsOfRole(a + b, role) == SpecsOfRole(a, role) + SpecsOfRole(b, role)
    decreases |a|
  {
    if a == [] {
      assert a + b == b;
    } else {
      assert (a + b)[1..] == a[1..] + b;
      SpecsOfRoleConcat(a[1..], b, role);
    }
  }

  lemma SpecsOfRoleSingle(s: Slot, role: Role)
    ensures SpecsOfRole([s], role) == if s.spec.role == role then [s.spec] else []
  {
    assert [s][1..] == [];
  }

  /** `machines[spec] = None` for each spec, in order. */
  function Reserved(specs: seq<Spec>): (r: seq<Slot>)
    ensures |r| == |specs| && forall i :: 0 <= i < |specs| ==> r[i] == Slot(specs[i], null)
  {
    seq(|specs|, i requires 0 <= i < |specs| => Slot(specs[i], null))
  }

  lemma ReservedConcat(a: seq<Spec>, b: seq<Spec>)
    ensures Reserved(a + b) == Reserved(a) + Reserved(b)
  {
  }

  /** Reserving the next spec of a pool appends its entry. */
  lemma ReservedExtend(prefix: seq<Spec>, pool: seq<Spec>, i: nat)
    requires i < |pool|
    ensures Reserved(prefix + pool[..i + 1]) == Reserved(prefix + pool[..i]) + [Slot(pool[i], null)]
  {
    assert prefix + pool[..i + 1] == prefix + pool[..i] + [pool[i]];
  }

  lemma {:induction false} SpecsOfRoleUniform(slots: seq<Slot>, role: Role)
    ensures (forall i :: 0 <= i < |slots| ==> slots[i].spec.role == role) ==> SpecsOfRole(slots, role) == SpecsOf(slots)
    ensures (forall i :: 0 <= i < |slots| ==> slots[i].spec.role != role) ==> SpecsOfRole(slots, role) == []
    decreases |slots|
  {
    if slots != [] {
      SpecsOfRoleUniform(slots[1..], role);
      assert SpecsOf(slots) == [slots[0].spec] + SpecsOf(slots[1..]);
    }
  }

  // ---------------------------------------------------------------------------
  // Spec identity: everything but the config, which `_boot_machines` updates

  function Blank(s: Spec): Spec {
    s.(config := [])
  }

  function Blanks(specs: seq<Spec>): (r: seq<Spec>)
    ensures |r| == |specs| && forall i :: 0 <= i < |specs| ==> r[i] == Blank(specs[i])
  {
    seq(|specs|, i requires 0 <= i < |specs| => Blank(specs[i]))
  }

  lemma BlanksConcat(a: seq<Spec>, b: seq<Spec>)
    ensures Blanks(a + b) == Blanks(a) + Blanks(b)
  {
  }

  /** Entries that agree on everything but their configs agree on the
      entries of each role, up to configs. */
  lemma {:induction false} SameBlanksRole(a: seq<Slot>, b: seq<Slot>, role: Role)
    requires |a| == |b| && forall i :: 0 <= i < |a| ==> Blank(a[i].spec) == Blank(b[i].spec)
    ensures Blanks(SpecsOfRole(a, role)) == Blanks(SpecsOfRole(b, role))
    decreases |a|
  {
    if a != [] {
      SameBlanksRole(a[1..], b[1..], role);
      assert Blank(a[0].spec).role == a[0].spec.role && Blank(b[0].spec).role == b[0].spec.role;
      var ha := if a[0].spec.role == role then [a[0].spec] else [];
      var hb := if b[0].spec.role == role then [b[0].spec] else [];
      BlanksConcat(ha, SpecsOfRole(a[1..], role));
      BlanksConcat(hb, SpecsOfRole(b[1..], role));
    }
  }

  /** A spec's config is a dict, and a core or replica spec keeps the mode its
      constructor forced. */
  ghost predicate WellFormedSpecs(specs: seq<Spec>) {
    forall i :: 0 <= i < |specs| ==>
      Distinct(specs[i].config) &&
      (specs[i].role != Standalone ==> Get(specs[i].config, ModeKey) == ForcedMode(specs[i].role))
  }

  // ---------------------------------------------------------------------------
  // Discovery members

  /** `sep.join(parts)`. */
  function Join(parts: seq<string>, sep: char): string {
    if parts == [] then ""
    else if |parts| == 1 then parts[0]
    else parts[0] + [sep] + Join(parts[1..], sep)
  }

  function FirstIndex(s: string, c: char): (i: nat)
    requires c in s
    ensures i < |s| && s[i] == c && forall j :: 0 <= j < i ==> s[j] != c
  {
    if s[0] == c then 0 else 1 + FirstIndex(s[1..], c)
  }

  /** `s.split(sep)`. */
  function Split(s: string, sep: char): seq<string>
    decreases |s|
  {
    if sep !in s then [s]
    else
      var i := FirstIndex(s, sep);
      [s[..i]] + Split(s[i + 1..], sep)
  }

  /** A joined list reads back into its parts when no part holds the
      separator. */
  lemma {:induction false} SplitJoin(parts: seq<string>, sep: char)
    requires parts != []
    requires forall i :: 0 <= i < |parts| ==> sep !in parts[i]
    ensures Split(Join(parts, sep), sep) == parts
    decreases |parts|
  {
    if |parts| > 1 {
      var rest := Join(parts[1..], sep);
      var s := parts[0] + [sep] + rest;
      assert sep in s by { assert s[|parts[0]|] == sep; }
      var i := FirstIndex(s, sep);
      assert i == |parts[0]|;
      assert s[..i] == parts[0];
      assert s[i + 1..] == rest;
      SplitJoin(parts[1..], sep);
    }
  }

  function DiscoveryAddresses(specs: seq<Spec>): (r: seq<string>)
    ensures |r| == |specs| && forall i :: 0 <= i < |specs| ==> r[i] == DiscoveryAddress(specs[i])
  {
    seq(|specs|, i requires 0 <= i < |specs| => DiscoveryAddress(specs[i]))
  }

  /** The comma-joined discovery addresses of every core entry, reserved or
      not, in `machines` order. */
  function DiscoveryMembers(slots: seq<Slot>): string {
    Join(DiscoveryAddresses(SpecsOfRole(slots, Core)), ',')
  }

  /** The members setting reads back into one discovery address per core
      entry, in order, when names hold no comma. */
  lemma DiscoveryMembersReadBack(slots: seq<Slot>)
    requires SpecsOfRole(slots, Core) != []
    requires forall s :: s in SpecsOfRole(slots, Core) ==> ',' !in s.name && ',' !in s.serviceName
    ensures Split(DiscoveryMembers(slots), ',') == DiscoveryAddresses(SpecsOfRole(slots, Core))
  {
    var cores := SpecsOfRole(slots, Core);
    var parts := DiscoveryAddresses(cores);
    forall i | 0 <= i < |parts| ensures ',' !in parts[i] {
      assert cores[i] in cores;
      var d := DiscoveryAddress(cores[i]);
      assert d == cores[i].name + "." + cores[i].serviceName + ":5000";
      forall j | 0 <= j < |d| ensures d[j] != ',' {
        var n := |cores[i].name|;
        var m := |cores[i].serviceName|;
        if j < n {
          assert d[j] == cores[i].name[j];
        } else if j == n {
        } else if j < n + 1 + m {
          assert d[j] == cores[i].serviceName[j - n - 1];
        }
      }
    }
    SplitJoin(parts, ',');
  }

  /** The discovery list depends only on names, so stamping configs does not
      change it. */
  lemma SameBlanksMembers(a: seq<Slot>, b: seq<Slot>)
    requires |a| == |b| && forall i :: 0 <= i < |a| ==> Blank(a[i].spec) == Blank(b[i].spec)
    ensures DiscoveryMembers(a) == DiscoveryMembers(b)
  {
    SameBlanksRole(a, b, Core);
    var x, y := SpecsOfRole(a, Core), SpecsOfRole(b, Core);
    assert |Blanks(x)| == |Blanks(y)|;
    forall i | 0 <= i < |x| ensures DiscoveryAddress(x[i]) == DiscoveryAddress(y[i]) {
      assert Blanks(x)[i] == Blanks(y)[i];
    }
    assert DiscoveryAddresses(x) == DiscoveryAddresses(y);
  }

  /** `spec.config.update({members key: members})`. */
  function Stamp(spec: Spec, members: string): (r: Spec)
    requires Distinct(spec.config)
    ensures Blank(r) == Blank(spec) && Distinct(r.config)
    ensures Get(r.config, DiscoveryMembersKey) == Some(members)
    ensures forall k :: k != DiscoveryMembersKey ==> Get(r.config, k) == Get(spec.config, k)
  {
    spec.(config := Put(spec.config, DiscoveryMembersKey, members))
  }

  /** The entry before and after `_boot_machines`: a provisioned entry is
      left alone, a reserved one gets the members setting and a machine. */
  ghost predicate BootedFrom(before: Slot, after: Slot, members: string) {
    if before.machine != null then after == before
    else Distinct(before.spec.config) && after.spec == Stamp(before.spec, members) && after.machine != null
  }

  /** `machines` before and after a whole `_boot_machines` run. */
  ghost predicate BootedAll(before: seq<Slot>, after: seq<Slot>, members: string) {
    |after| == |before| && forall k :: 0 <= k < |after| ==> BootedFrom(before[k], after[k], members)
  }

  // ---------------------------------------------------------------------------
  // Lookups

  /** `_get_machine_by_address`: the machine of the first entry whose bolt
      address is `addr`, or `None`. */
  function MachineAt(slots: seq<Slot>, addr: Address): (m: Machine?)
    ensures (forall i :: 0 <= i < |slots| ==> BoltAddress(slots[i].spec) != addr) ==> m == null
    ensures m != null ==> exists i :: 0 <= i < |slots| && BoltAddress(slots[i].spec) == addr && slots[i].machine == m
  {
    if slots == [] then null
    else if BoltAddress(slots[0].spec) == addr then slots[0].machine
    else MachineAt(slots[1..], addr)
  }

  /** The first entry with the address is the one whose machine is found. */
  lemma {:induction false} MachineAtFirst(slots: seq<Slot>, addr: Address, i: nat)
    requires i < |slots| && BoltAddress(slots[i].spec) == addr
    requires forall j :: 0 <= j < i ==> BoltAddress(slots[j].spec) != addr
    ensures MachineAt(slots, addr) == slots[i].machine
    decreases i
  {
    if i > 0 {
      MachineAtFirst(slots[1..], addr, i - 1);
    }
  }

  /** `[self._get_machine_by_address(a) for a in addresses]`. */
  function Resolve(slots: seq<Slot>, addresses: seq<Address>): (r: seq<Machine?>)
    ensures |r| == |addresses| && forall i :: 0 <= i < |addresses| ==> r[i] == MachineAt(slots, addresses[i])
  {
    seq(|addresses|, i requires 0 <= i < |addresses| => MachineAt(slots, addresses[i]))
  }

  /** `name in (spec.name, spec.fq_name)`. */
  predicate Named(s: Slot, name: string) {
    name == s.spec.name || name == FqName(s.spec)
  }

  /** The entries `console_ping` and `console_logs` act on. */
  function NamedSlots(slots: seq<Slot>, name: string): seq<Slot> {
    if slots == [] then []
    else NamedSlots(slots[..|slots| - 1], name) +
         (if Named(slots[|slots| - 1], name) then [slots[|slots| - 1]] else [])
  }

  /** The test `console_remove` applies to each entry: a reader for "r", a
      writer for "w" (only once routing was resolved), else a name match. */
  predicate RemoveMatches(name: string, s: Slot, cache: Option<RoutingCache>) {
    || (name == "r" && cache.Some? && s.machine in cache.value.readers)
    || (name == "w" && cache.Some? && s.machine in cache.value.writers)
    || Named(s, name)
  }

  function Kept(slots: seq<Slot>, name: string, cache: Option<RoutingCache>): seq<Slot> {
    if slots == [] then []
    else Kept(slots[..|slots| - 1], name, cache) +
         (if RemoveMatches(name, slots[|slots| - 1], cache) then [] else [slots[|slots| - 1]])
  }

  function Removed(slots: seq<Slot>, name: string, cache: Option<RoutingCache>): seq<Slot> {
    if slots == [] then []
    else Removed(slots[..|slots| - 1], name, cache) +
         (if RemoveMatches(name, slots[|slots| - 1], cache) then [slots[|slots| - 1]] else [])
  }

  // ---------------------------------------------------------------------------
  // The partition of a cluster's slots

  /** The entries of a role and its pool together hold each slot of the
      role's table once (specs compared without their configs). */
  ghost predicate Share(onRole: seq<Spec>, pool: seq<Spec>, table: seq<Spec>) {
    multiset(Blanks(onRole)) + multiset(Blanks(pool)) == multiset(Blanks(table))
  }

  /** Every slot of the two tables is either an entry of `machines` or in its
      role's free pool, exactly once. */
  ghost predicate Partitioned(slots: seq<Slot>, freeCores: seq<Spec>, freeReplicas: seq<Spec>,
                              cores: seq<Spec>, replicas: seq<Spec>) {
    && SpecsOfRole(slots, Standalone) == []
    && (forall i :: 0 <= i < |freeCores| ==> freeCores[i].role == Core)
    && (forall i :: 0 <= i < |freeReplicas| ==> freeReplicas[i].role == Replica)
    && Share(SpecsOfRole(slots, Core), freeCores, cores)
    && Share(SpecsOfRole(slots, Replica), freeReplicas, replicas)
  }

  /** The pool invariant: a role's entries and its free specs add up to the
      size of its table. */
  lemma PoolSizes(slots: seq<Slot>, freeCores: seq<Spec>, freeReplicas: seq<Spec>,
                  cores: seq<Spec>, replicas: seq<Spec>)
    requires Partitioned(slots, freeCores, freeReplicas, cores, replicas)
    ensures |SpecsOfRole(slots, Core)| + |freeCores| == |cores|
    ensures |SpecsOfRole(slots, Replica)| + |freeReplicas| == |replicas|
  {
    assert |multiset(Blanks(cores))| == |cores|;
    assert |multiset(Blanks(replicas))| == |replicas|;
  }

  /** Counting a spec among the entries of its own role is counting it among
      all entries. */
  lemma {:induction false} RoleCount(slots: seq<Slot>, x: Spec)
    ensures multiset(Blanks(SpecsOfRole(slots, x.role)))[x] == multiset(Blanks(SpecsOf(slots)))[x]
    decreases |slots|
  {
    if slots != [] {
      RoleCount(slots[1..], x);
      var head := if slots[0].spec.role == x.role then [slots[0].spec] else [];
      BlanksConcat(head, SpecsOfRole(slots[1..], x.role));
      assert SpecsOf(slots) == [slots[0].spec] + SpecsOf(slots[1..]);
      BlanksConcat([slots[0].spec], SpecsOf(slots[1..]));
    }
  }

  lemma CountTwo(s: seq<Spec>, i: nat, j: nat)
    requires i < j < |s| && s[i] == s[j]
    ensures multiset(s)[s[i]] >= 2
  {
    assert s == s[..i] + [s[i]] + s[i + 1..j] + [s[j]] + s[j + 1..];
  }

  /** A table whose names are distinct holds each blank spec at most once. */
  lemma {:induction false} CountAtMostOne(t: seq<Spec>, x: Spec)
    requires SpecsDisjoint(t)
    ensures multiset(Blanks(t))[x] <= 1
    decreases |t|
  {
    if t != [] {
      CountAtMostOne(t[1..], x);
      assert Blanks(t) == [Blank(t[0])] + Blanks(t[1..]);
      if Blank(t[0]) == x {
        assert forall j :: 0 <= j < |t[1..]| ==> t[1..][j].name != x.name;
        assert x !in Blanks(t[1..]);
      }
    }
  }

  /** Within a partitioned cluster, every entry is one slot of the tables, and
      no two entries share a name, a bolt port or an HTTP port. */
  lemma PartitionedEntriesDisjoint(slots: seq<Slot>, freeCores: seq<Spec>, freeReplicas: seq<Spec>,
                                   cores: seq<Spec>, replicas: seq<Spec>)
    requires Partitioned(slots, freeCores, freeReplicas, cores, replicas)
    requires SpecsDisjoint(cores + replicas)
    ensures forall i :: 0 <= i < |slots| ==> Blank(slots[i].spec) in Blanks(cores + replicas)
    ensures SpecsDisjoint(SpecsOf(slots))
  {
    var all := Blanks(cores + replicas);
    BlanksConcat(cores, replicas);
    forall x ensures multiset(Blanks(SpecsOf(slots)))[x] <= multiset(all)[x] <= 1 {
      RoleCount(slots, x);
      CountAtMostOne(cores + replicas, x);
    }
    forall i | 0 <= i < |slots| ensures Blank(slots[i].spec) in all {
      assert Blanks(SpecsOf(slots))[i] == Blank(slots[i].spec);
      assert multiset(Blanks(SpecsOf(slots)))[Blank(slots[i].spec)] >= 1;
    }
    UniqueBlanksDisjoint(slots, cores + replicas);
  }

  /** Entries whose blanks are distinct slots of disjoint tables are
      themselves disjoint. */
  lemma UniqueBlanksDisjoint(slots: seq<Slot>, specs: seq<Spec>)
    requires SpecsDisjoint(specs)
    requires forall i :: 0 <= i < |slots| ==> Blank(slots[i].spec) in Blanks(specs)
    requires forall x :: multiset(Blanks(SpecsOf(slots)))[x] <= 1
    ensures SpecsDisjoint(SpecsOf(slots))
  {
    var all := Blanks(specs);
    forall i, j | 0 <= i < j < |slots|
      ensures SpecsOf(slots)[i].name != SpecsOf(slots)[j].name
      ensures SpecsOf(slots)[i].boltPort != SpecsOf(slots)[j].boltPort
      ensures SpecsOf(slots)[i].httpPort != SpecsOf(slots)[j].httpPort
    {
      var a, b := Blank(slots[i].spec), Blank(slots[j].spec);
      if a == b {
        CountTwo(Blanks(SpecsOf(slots)), i, j);
      }
      var p :| 0 <= p < |all| && all[p] == a;
      var q :| 0 <= q < |all| && all[q] == b;
      assert p != q;
      if p < q {
        assert specs[p].name != specs[q].name;
      } else {
        assert specs[q].name != specs[p].name;
      }
    }
  }

  /** The free pool of a role. */
  function PoolOf(freeCores: seq<Spec>, freeReplicas: seq<Spec>, role: Role): seq<Spec> {
    if role == Core then freeCores else freeReplicas
  }

  /** Moving the head of a pool to the entries keeps the share. */
  lemma ShareMove(onRole: seq<Spec>, pool: seq<Spec>, table: seq<Spec>)
    requires Share(onRole, pool, table) && pool != []
    ensures Share(onRole + [pool[0]], pool[1..], table)
  {
    BlanksConcat(onRole, [pool[0]]);
    assert pool == [pool[0]] + pool[1..];
    BlanksConcat([pool[0]], pool[1..]);
  }

  /** Moving an entry to the end of its pool keeps the share. */
  lemma ShareReturn(a: seq<Spec>, x: Spec, b: seq<Spec>, pool: seq<Spec>, table: seq<Spec>)
    requires Share(a + [x] + b, pool, table)
    ensures Share(a + b, pool + [x], table)
  {
    BlanksConcat(a + [x], b);
    BlanksConcat(a, [x]);
    BlanksConcat(a, b);
    BlanksConcat(pool, [x]);
  }

  lemma SpecsOfRoleAppend(slots: seq<Slot>, s: Slot, role: Role)
    ensures SpecsOfRole(slots + [s], role) == SpecsOfRole(slots, role) + (if s.spec.role == role then [s.spec] else [])
  {
    SpecsOfRoleConcat(slots, [s], role);
    SpecsOfRoleSingle(s, role);
  }

  /** `self.machines[pool.pop(0)] = None` keeps the partition. */
  lemma PartitionedAdd(slots: seq<Slot>, freeCores: seq<Spec>, freeReplicas: seq<Spec>,
                       cores: seq<Spec>, replicas: seq<Spec>, role: Role)
    requires Partitioned(slots, freeCores, freeReplicas, cores, replicas)
    requires role != Standalone && PoolOf(freeCores, freeReplicas, role) != []
    ensures Partitioned(slots + [Slot(PoolOf(freeCores, freeReplicas, role)[0], null)],
                        if role == Core then freeCores[1..] else freeCores,
                        if role == Replica then freeReplicas[1..] else freeReplicas,
                        cores, replicas)
  {
    var pool := PoolOf(freeCores, freeReplicas, role);
    var s := Slot(pool[0], null);
    var after := slots + [s];
    SpecsOfRoleAppend(slots, s, Standalone);
    SpecsOfRoleAppend(slots, s, Core);
    SpecsOfRoleAppend(slots, s, Replica);
    assert SpecsOfRole(after, Standalone) == [];
    if role == Core {
      ShareMove(SpecsOfRole(slots, Core), freeCores, cores);
      assert SpecsOfRole(after, Replica) == SpecsOfRole(slots, Replica);
      assert Partitioned(after, freeCores[1..], freeReplicas, cores, replicas);
    } else {
      ShareMove(SpecsOfRole(slots, Replica), freeReplicas, replicas);
      assert SpecsOfRole(after, Core) == SpecsOfRole(slots, Core);
      assert Partitioned(after, freeCores, freeReplicas[1..], cores, replicas);
    }
  }

  lemma SpecsOfRoleSplit(a: seq<Slot>, x: Slot, b: seq<Slot>, role: Role)
    ensures SpecsOfRole(a + [x] + b, role) ==
            SpecsOfRole(a, role) + (if x.spec.role == role then [x.spec] else []) + SpecsOfRole(b, role)
    ensures SpecsOfRole(a + b, role) == SpecsOfRole(a, role) + SpecsOfRole(b, role)
  {
    SpecsOfRoleConcat(a + [x], b, role);
    SpecsOfRoleAppend(a, x, role);
    SpecsOfRoleConcat(a, b, role);
  }

  lemma ShareRemove(a: seq<Slot>, x: Slot, b: seq<Slot>, pool: seq<Spec>, table: seq<Spec>)
    requires Share(SpecsOfRole(a + [x] + b, x.spec.role), pool, table)
    ensures Share(SpecsOfRole(a + b, x.spec.role), pool + [x.spec], table)
  {
    SpecsOfRoleSplit(a, x, b, x.spec.role);
    ShareReturn(SpecsOfRole(a, x.spec.role), x.spec, SpecsOfRole(b, x.spec.role), pool, table);
  }

  lemma OtherRoleRemove(a: seq<Slot>, x: Slot, b: seq<Slot>, role: Role)
    requires x.spec.role != role
    ensures SpecsOfRole(a + b, role) == SpecsOfRole(a + [x] + b, role)
  {
    SpecsOfRoleSplit(a, x, b, role);
  }

  /** `del self.machines[spec]` followed by appending the spec to its pool
      keeps the partition. */
  lemma PartitionedRemove(a: seq<Slot>, x: Slot, b: seq<Slot>, freeCores: seq<Spec>, freeReplicas: seq<Spec>,
                          cores: seq<Spec>, replicas: seq<Spec>)
    requires Partitioned(a + [x] + b, freeCores, freeReplicas, cores, replicas)
    ensures x.spec.role != Standalone
    ensures Partitioned(a + b,
                        if x.spec.role == Core then freeCores + [x.spec] else freeCores,
                        if x.spec.role == Replica then freeReplicas + [x.spec] else freeReplicas,
                        cores, replicas)
  {
    SpecsOfRoleSplit(a, x, b, Standalone);
    assert x.spec.role != Standalone;
    OtherRoleRemove(a, x, b, Standalone);
    if x.spec.role == Core {
      ShareRemove(a, x, b, freeCores, cores);
      OtherRoleRemove(a, x, b, Replica);
    } else {
      ShareRemove(a, x, b, freeReplicas, replicas);
      OtherRoleRemove(a, x, b, Core);
    }
  }

  /** Stamping configs keeps the partition. */
  lemma PartitionedSameBlanks(a: seq<Slot>, b: seq<Slot>, freeCores: seq<Spec>, freeReplicas: seq<Spec>,
                              cores: seq<Spec>, replicas: seq<Spec>)
    requires Partitioned(a, freeCores, freeReplicas, cores, replicas)
    requires |a| == |b| && forall i :: 0 <= i < |a| ==> Blank(a[i].spec) == Blank(b[i].spec)
    ensures Partitioned(b, freeCores, freeReplicas, cores, replicas)
  {
    SameBlanksRole(a, b, Standalone);
    SameBlanksRole(a, b, Core);
    SameBlanksRole(a, b, Replica);
    assert |Blanks(SpecsOfRole(b, Standalone))| == 0;
  }

  /** Each entry's machine, where it has one, runs the entry's spec, and no
      machine serves two entries. */
  ghost predicate Provisioned(slots: seq<Slot>) {
    && (forall i :: 0 <= i < |slots| && slots[i].machine != null ==> slots[i].machine.spec == slots[i].spec)
    && (forall i, j :: 0 <= i < j < |slots| && slots[i].machine != null ==> slots[i].machine != slots[j].machine)
  }

  /** Giving a reserved entry a machine of its own keeps the entries
      provisioned. */
  lemma ProvisionedBoot(slots: seq<Slot>, i: nat, spec: Spec, m: Machine)
    requires Provisioned(slots) && i < |slots| && slots[i].machine == null
    requires m.spec == spec && forall k :: 0 <= k < |slots| ==> slots[k].machine != m
    ensures Provisioned(slots[i := Slot(spec, m)])
  {
  }

  /** Stamping the discovery list into one entry keeps its config a dict
      and its mode. */
  lemma WellFormedStamp(slots: seq<Slot>, i: nat, members: string)
    requires WellFormedSpecs(SpecsOf(slots)) && i < |slots|
    ensures Distinct(slots[i].spec.config)
    ensures forall m: Machine? :: WellFormedSpecs(SpecsOf(slots[i := Slot(Stamp(slots[i].spec, members), m)]))
  {
    assert SpecsOf(slots)[i] == slots[i].spec;
    forall m: Machine? ensures WellFormedSpecs(SpecsOf(slots[i := Slot(Stamp(slots[i].spec, members), m)])) {
      var after := slots[i := Slot(Stamp(slots[i].spec, members), m)];
      forall k | 0 <= k < |after|
        ensures Distinct(SpecsOf(after)[k].config)
        ensures SpecsOf(after)[k].role != Standalone ==>
                Get(SpecsOf(after)[k].config, ModeKey) == ForcedMode(SpecsOf(after)[k].role)
      {
        if k != i {
          assert SpecsOf(after)[k] == SpecsOf(slots)[k];
        } else {
          assert Get(SpecsOf(after)[k].config, ModeKey) == Get(slots[i].spec.config, ModeKey);
        }
      }
    }
  }

  lemma WellFormedAppend(slots: seq<Slot>, s: Slot)
    requires WellFormedSpecs(SpecsOf(slots)) && WellFormedSpecs([s.spec])
    ensures WellFormedSpecs(SpecsOf(slots + [s]))
  {
    assert SpecsOf(slots + [s]) == SpecsOf(slots) + [s.spec];
  }

  lemma ProvisionedAppendReserved(slots: seq<Slot>, spec: Spec)
    requires Provisioned(slots)
    ensures Provisioned(slots + [Slot(spec, null)])
  {
  }

  /** A standalone service's one entry. */
  lemma SingleEntry(s: Slot)
    requires Distinct(s.spec.config) && s.spec.role == Standalone
    requires s.machine != null && s.machine.spec == s.spec
    ensures Provisioned([s]) && WellFormedSpecs(SpecsOf([s]))
  {
  }

  lemma ProvisionedRemove(slots: seq<Slot>, k: nat)
    requires Provisioned(slots) && k < |slots|
    ensures Provisioned(slots[..k] + slots[k + 1..])
  {
    var r := slots[..k] + slots[k + 1..];
    assert forall i :: 0 <= i < |r| ==> r[i] == slots[if i < k then i else i + 1];
  }

  lemma WellFormedRemove(slots: seq<Slot>, k: nat)
    requires WellFormedSpecs(SpecsOf(slots)) && k < |slots|
    ensures WellFormedSpecs(SpecsOf(slots[..k] + slots[k + 1..]))
    ensures WellFormedSpecs([slots[k].spec])
  {
    var r := slots[..k] + slots[k + 1..];
    assert forall i :: 0 <= i < |r| ==> SpecsOf(r)[i] == SpecsOf(slots)[if i < k then i else i + 1];
    assert SpecsOf(slots)[k] == slots[k].spec;
  }

  lemma WellFormedConcat(a: seq<Spec>, b: seq<Spec>)
    requires WellFormedSpecs(a) && WellFormedSpecs(b)
    ensures WellFormedSpecs(a + b)
  {
  }

  /** The machines of a role run the specs of that role, in order. */
  lemma {:induction false} MachinesOfRoleSpecs(slots: seq<Slot>, role: Role)
    requires forall i :: 0 <= i < |slots| ==> slots[i].machine != null && slots[i].machine.spec == slots[i].spec
    ensures forall i :: 0 <= i < |MachinesOfRole(slots, role)| ==>
      MachinesOfRole(slots, role)[i] != null && MachinesOfRole(slots, role)[i].spec == SpecsOfRole(slots, role)[i]
    decreases |slots|
  {
    if slots != [] {
      MachinesOfRoleSpecs(slots[1..], role);
    }
  }

  /** Every entry is either kept or removed. */
  lemma {:induction false} KeptRemovedSizes(slots: seq<Slot>, name: string, cache: Option<RoutingCache>)
    ensures |Kept(slots, name, cache)| + |Removed(slots, name, cache)| == |slots|
    decreases |slots|
  {
    if slots != [] {
      KeptRemovedSizes(slots[..|slots| - 1], name, cache);
    }
  }

  /** `rm` keeps exactly the entries that do not match its argument, and
      removes exactly those that do. */
  lemma {:induction false} KeptRemovedExact(slots: seq<Slot>, name: string, cache: Option<RoutingCache>)
    ensures forall x :: x in Kept(slots, name, cache) <==> x in slots && !RemoveMatches(name, x, cache)
    ensures forall x :: x in Removed(slots, name, cache) <==> x in slots && RemoveMatches(name, x, cache)
    decreases |slots|
  {
    if slots != [] {
      var init := slots[..|slots| - 1];
      KeptRemovedExact(init, name, cache);
      assert slots == init + [slots[|slots| - 1]];
    }
  }

  /** Once routing information is cached, `rm r` removes every entry whose
      machine is a cached reader and `rm w` every entry whose machine is a
      cached writer. */
  lemma RemoveByRole(slots: seq<Slot>, cache: RoutingCache)
    ensures forall x :: x in slots && x.machine in cache.readers ==>
      x in Removed(slots, "r", Some(cache)) && x !in Kept(slots, "r", Some(cache))
    ensures forall x :: x in slots && x.machine in cache.writers ==>
      x in Removed(slots, "w", Some(cache)) && x !in Kept(slots, "w", Some(cache))
  {
    KeptRemovedExact(slots, "r", Some(cache));
    KeptRemovedExact(slots, "w", Some(cache));
  }

  /** The entries of a role are split between those `rm` keeps and those
      it removes. */
  lemma {:induction false} KeptRemovedRoles(slots: seq<Slot>, name: string, cache: Option<RoutingCache>, role: Role)
    ensures |SpecsOfRole(Kept(slots, name, cache), role)| + |SpecsOfRole(Removed(slots, name, cache), role)|
            == |SpecsOfRole(slots, role)|
    decreases |slots|
  {
    if slots != [] {
      var init, last := slots[..|slots| - 1], slots[|slots| - 1];
      KeptRemovedRoles(init, name, cache, role);
      assert slots == init + [last];
      SpecsOfRoleAppend(init, last, role);
      if RemoveMatches(name, last, cache) {
        assert Removed(slots, name, cache) == Removed(init, name, cache) + [last];
        assert Kept(slots, name, cache) == Kept(init, name, cache);
        SpecsOfRoleAppend(Removed(init, name, cache), last, role);
      } else {
        assert Kept(slots, name, cache) == Kept(init, name, cache) + [last];
        assert Removed(slots, name, cache) == Removed(init, name, cache);
        SpecsOfRoleAppend(Kept(init, name, cache), last, role);
      }
    }
  }

  /** An entry of a role makes the role non-empty. */
  lemma {:induction false} RoleMember(slots: seq<Slot>, x: Slot, role: Role)
    requires x in slots && x.spec.role == role
    ensures |SpecsOfRole(slots, role)| >= 1
    decreases |slots|
  {
    if slots[0] != x {
      assert x in slots[1..];
      RoleMember(slots[1..], x, role);
    }
  }

  /** The entries `ping` and `logs` act on are the named ones, in order. */
  lemma {:induction false} NamedSlotsExact(slots: seq<Slot>, name: string)
    ensures forall s :: s in NamedSlots(slots, name) <==> s in slots && Named(s, name)
    decreases |slots|
  {
    if slots != [] {
      var init := slots[..|slots| - 1];
      NamedSlotsExact(init, name);
      assert slots == init + [slots[|slots| - 1]];
    }
  }

  /** One step of the loop over the snapshot: the entry at `i` is either
      kept or removed. */
  lemma RemoveStep(snapshot: seq<Slot>, i: nat, name: string, cache: Option<RoutingCache>)
    requires i < |snapshot|
    ensures Kept(snapshot[..i + 1], name, cache) ==
      Kept(snapshot[..i], name, cache) + (if RemoveMatches(name, snapshot[i], cache) then [] else [snapshot[i]])
    ensures Removed(snapshot[..i + 1], name, cache) ==
      Removed(snapshot[..i], name, cache) + (if RemoveMatches(name, snapshot[i], cache) then [snapshot[i]] else [])
  {
    assert snapshot[..i + 1][..i] == snapshot[..i];
  }

  /** Every entry has its machine. */
  ghost predicate AllBooted(slots: seq<Slot>) {
    forall i :: 0 <= i < |slots| ==> slots[i].machine != null
  }

  lemma AllBootedRemove(slots: seq<Slot>, k: nat)
    requires k < |slots| && AllBooted(slots)
    ensures AllBooted(slots[..k] + slots[k + 1..])
  {
    var r := slots[..k] + slots[k + 1..];
    assert forall i :: 0 <= i < |r| ==> r[i] == slots[if i < k then i else i + 1];
  }

  /** Taking out the entry that follows `kept` in `kept + snapshot[i..]`. */
  lemma SplitAtHead(kept: seq<Slot>, snapshot: seq<Slot>, i: nat)
    requires i < |snapshot|
    ensures (kept + snapshot[i..])[|kept|] == snapshot[i]
    ensures (kept + snapshot[i..])[..|kept|] + (kept + snapshot[i..])[|kept| + 1..] == kept + snapshot[i + 1..]
    ensures kept + snapshot[i..] == kept + [snapshot[i]] + snapshot[i + 1..]
  {
    var all := kept + snapshot[i..];
    assert all[..|kept|] == kept;
    assert all[|kept| + 1..] == snapshot[i + 1..];
    assert snapshot[i..] == [snapshot[i]] + snapshot[i + 1..];
  }

  /** The state of `console_remove` after the first `i` entries of the
      snapshot: the kept ones, then the unvisited ones, are the entries; the
      pools gained the specs of the removed ones. */
  ghost predicate RemoveProgress(snapshot: seq<Slot>, i: nat, name: string, cache: Option<RoutingCache>,
                                 slots: seq<Slot>, freeCores: seq<Spec>, freeReplicas: seq<Spec>,
                                 cores0: seq<Spec>, replicas0: seq<Spec>)
  {
    && i <= |snapshot|
    && slots == Kept(snapshot[..i], name, cache) + snapshot[i..]
    && freeCores == cores0 + SpecsOfRole(Removed(snapshot[..i], name, cache), Core)
    && freeReplicas == replicas0 + SpecsOfRole(Removed(snapshot[..i], name, cache), Replica)
  }

  /** Where the entry being visited sits among the current entries. */
  lemma VisitPosition(snapshot: seq<Slot>, i: nat, name: string, cache: Option<RoutingCache>,
                      slots: seq<Slot>, freeCores: seq<Spec>, freeReplicas: seq<Spec>,
                      cores0: seq<Spec>, replicas0: seq<Spec>)
    requires RemoveProgress(snapshot, i, name, cache, slots, freeCores, freeReplicas, cores0, replicas0)
    requires i < |snapshot|
    ensures |Kept(snapshot[..i], name, cache)| < |slots|
    ensures slots[|Kept(snapshot[..i], name, cache)|] == snapshot[i]
  {
    SplitAtHead(Kept(snapshot[..i], name, cache), snapshot, i);
  }

  /** Visiting entry `i`: stopping it when it matches, leaving it otherwise,
      advances the progress by one. */
  lemma VisitStep(snapshot: seq<Slot>, i: nat, name: string, cache: Option<RoutingCache>,
                  slots: seq<Slot>, freeCores: seq<Spec>, freeReplicas: seq<Spec>,
                  slots': seq<Slot>, freeCores': seq<Spec>, freeReplicas': seq<Spec>,
                  cores0: seq<Spec>, replicas0: seq<Spec>)
    requires RemoveProgress(snapshot, i, name, cache, slots, freeCores, freeReplicas, cores0, replicas0)
    requires i < |snapshot|
    requires RemoveMatches(name, snapshot[i], cache) ==>
      var k := |Kept(snapshot[..i], name, cache)|;
      && k < |slots| && slots' == slots[..k] + slots[k + 1..]
      && freeCores' == (if snapshot[i].spec.role == Core then freeCores + [snapshot[i].spec] else freeCores)
      && freeReplicas' == (if snapshot[i].spec.role == Replica then freeReplicas + [snapshot[i].spec] else freeReplicas)
    requires !RemoveMatches(name, snapshot[i], cache) ==>
      slots' == slots && freeCores' == freeCores && freeReplicas' == freeReplicas
    ensures RemoveProgress(snapshot, i + 1, name, cache, slots', freeCores', freeReplicas', cores0, replicas0)
    ensures |Removed(snapshot[..i + 1], name, cache)| ==
      |Removed(snapshot[..i], name, cache)| + if RemoveMatches(name, snapshot[i], cache) then 1 else 0
  {
    RemoveStep(snapshot, i, name, cache);
    if RemoveMatches(name, snapshot[i], cache) {
      VisitHit(snapshot, i, name, cache, slots, freeCores, freeReplicas, slots', freeCores', freeReplicas', cores0, replicas0);
    } else {
      var removed := Removed(snapshot[..i], name, cache);
      assert removed + [] == removed;
      SplitAtHead(Kept(snapshot[..i], name, cache), snapshot, i);
    }
  }

  lemma VisitHit(snapshot: seq<Slot>, i: nat, name: string, cache: Option<RoutingCache>,
                 slots: seq<Slot>, freeCores: seq<Spec>, freeReplicas: seq<Spec>,
                 slots': seq<Slot>, freeCores': seq<Spec>, freeReplicas': seq<Spec>,
                 cores0: seq<Spec>, replicas0: seq<Spec>)
    requires RemoveProgress(snapshot, i, name, cache, slots, freeCores, freeReplicas, cores0, replicas0)
    requires i < |snapshot| && RemoveMatches(name, snapshot[i], cache)
    requires slots' == slots[..|Kept(snapshot[..i], name, cache)|] + slots[|Kept(snapshot[..i], name, cache)| + 1..]
    requires freeCores' == (if snapshot[i].spec.role == Core then freeCores + [snapshot[i].spec] else freeCores)
    requires freeReplicas' == (if snapshot[i].spec.role == Replica then freeReplicas + [snapshot[i].spec] else freeReplicas)
    ensures RemoveProgress(snapshot, i + 1, name, cache, slots', freeCores', freeReplicas', cores0, replicas0)
  {
    var kept, removed := Kept(snapshot[..i], name, cache), Removed(snapshot[..i], name, cache);
    assert Kept(snapshot[..i + 1], name, cache) == kept && Removed(snapshot[..i + 1], name, cache) == removed + [snapshot[i]] by {
      RemoveStep(snapshot, i, name, cache);
    }
    assert slots' == kept + snapshot[i + 1..] by {
      SplitAtHead(kept, snapshot, i);
    }
    assert freeCores' == cores0 + SpecsOfRole(removed + [snapshot[i]], Core) by {
      PoolGrows(cores0, removed, snapshot[i], Core, freeCores, freeCores');
    }
    assert freeReplicas' == replicas0 + SpecsOfRole(removed + [snapshot[i]], Replica) by {
      PoolGrows(replicas0, removed, snapshot[i], Replica, freeReplicas, freeReplicas');
    }
  }

  /** A pool that holds the specs of the removed entries of its role, after
      one more entry of that role was removed. */
  lemma PoolGrows(pool0: seq<Spec>, removed: seq<Slot>, s: Slot, role: Role, pool: seq<Spec>, pool': seq<Spec>)
    requires pool == pool0 + SpecsOfRole(removed, role)
    requires pool' == if s.spec.role == role then pool + [s.spec] else pool
    ensures pool' == pool0 + SpecsOfRole(removed + [s], role)
  {
    SpecsOfRoleAppend(removed, s, role);
    if s.spec.role == role {
      assert pool0 + SpecsOfRole(removed, role) + [s.spec] == pool0 + (SpecsOfRole(removed, role) + [s.spec]);
    } else {
      assert SpecsOfRole(removed, role) + [] == SpecsOfRole(removed, role);
    }
  }

  /** When no entry matches, `console_remove` keeps every entry. */
  lemma {:induction false} NoMatchKeepsAll(slots: seq<Slot>, name: string, cache: Option<RoutingCache>)
    requires forall i :: 0 <= i < |slots| ==> !RemoveMatches(name, slots[i], cache)
    ensures Kept(slots, name, cache) == slots && Removed(slots, name, cache) == []
    decreases |slots|
  {
    if slots != [] {
      var init := slots[..|slots| - 1];
      NoMatchKeepsAll(init, name, cache);
      assert slots == init + [slots[|slots| - 1]];
    }
  }
}
