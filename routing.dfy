/** The routing-table record returned by `dbms.cluster.routing.getRoutingTable`
    and the choice of one address list per role made by `_update_routing_info`
    (boltkit/server/__init__.py, lines 317-343). The connection and the query
    are not part of this model: the records are an input. */
module Routing {
  import opened MachineSpecs

  /** One entry of the record's server list: a role tag and its addresses. */
  datatype RoleEntry = RoleEntry(role: string, addresses: seq<Address>)

  /** One result record: a time-to-live and the server list. */
  datatype RoutingRecord = RoutingRecord(ttl: int, servers: seq<RoleEntry>)

  const RouteRole := "ROUTE"
  const ReadRole := "READ"
  const WriteRole := "WRITE"

  /** The addresses of the last entry tagged `role`, or none. */
  function LastOfRole(entries: seq<RoleEntry>, role: string): seq<Address> {
    if entries == [] then []
    else if entries[|entries| - 1].role == role then entries[|entries| - 1].addresses
    else LastOfRole(entries[..|entries| - 1], role)
  }

  /** A role with no entry has no addresses. */
  lemma {:induction false} LastOfRoleAbsent(entries: seq<RoleEntry>, role: string)
    requires forall j :: 0 <= j < |entries| ==> entries[j].role != role
    ensures LastOfRole(entries, role) == []
    decreases |entries|
  {
    if entries != [] {
      LastOfRoleAbsent(entries[..|entries| - 1], role);
    }
  }

  /** The last entry of a role wins over every earlier one. */
  lemma {:induction false} LastOfRoleWins(entries: seq<RoleEntry>, role: string, j: nat)
    requires j < |entries| && entries[j].role == role
    requires forall k :: j < k < |entries| ==> entries[k].role != role
    ensures LastOfRole(entries, role) == entries[j].addresses
    decreases |entries|
  {
    var n := |entries|;
    if j < n - 1 {
      var prefix := entries[..n - 1];
      assert prefix[j] == entries[j];
      LastOfRoleWins(prefix, role, j);
    }
  }

  /** The loop over the server list: each ROUTE, READ or WRITE entry replaces
      the list for its role; other roles are ignored. */
  method SelectRoles(entries: seq<RoleEntry>)
    returns (routers: seq<Address>, readers: seq<Address>, writers: seq<Address>)
    ensures routers == LastOfRole(entries, RouteRole)
    ensures readers == LastOfRole(entries, ReadRole)
    ensures writers == LastOfRole(entries, WriteRole)
  {
    routers, readers, writers := [], [], [];
    var i := 0;
    while i < |entries|
      invariant 0 <= i <= |entries|
      invariant routers == LastOfRole(entries[..i], RouteRole)
      invariant readers == LastOfRole(entries[..i], ReadRole)
      invariant writers == LastOfRole(entries[..i], WriteRole)
    {
      assert entries[..i + 1][..i] == entries[..i];
      var role := entries[i].role;
      if role == RouteRole {
        routers := entries[i].addresses;
      } else if role == ReadRole {
        readers := entries[i].addresses;
      } else if role == WriteRole {
        writers := entries[i].addresses;
      }
      i := i + 1;
    }
    assert entries[..i] == entries;
  }
}
