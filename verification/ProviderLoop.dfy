/** The steps of a run, join, leave and enumerate, and what every run keeps (provider_loop.go). */
module ProviderLoop {
  import opened Keys
  import opened Factory
  import opened EventLog
  import opened Sequences
  import opened Roster
  import opened GatewayState
  import opened Table
  import opened NodeUpdate

  /** A node that has joined: known, with one device that has no id yet. */
  ghost predicate Joined(n: Ieee, before: State, after: State) {
    && after.nodes == before.nodes + {n}
    && after.rows == before.rows[Address(n, 0) := Row(0, false, map[], map[])]
  }

  ghost predicate NoDevices(rows: Rows, n: Ieee) {
    forall a <- rows :: a.ieee != n
  }

  lemma JoinKeeps(m: Mapping, s: State, n: Ieee)
    requires Inv(m, s) && n !in s.nodes
    ensures NoDevices(s.rows, n)
    ensures var t := DeviceCreated(NodeAdded(s, n), Address(n, 0)); Inv(m, t) && Joined(n, s, t)
  {
    NodeAddedInv(m, s, n);
    DeviceCreatedInv(m, NodeAdded(s, n), Address(n, 0));
  }

  method ReceiveNodeJoin(z: Gateway, n: Ieee) returns (created: bool)
    requires z.Valid()
    modifies z`node, z`section, z`log, z`device, z`rows
    ensures z.Valid() && created == (n !in old(z.node)) && SameObjects(z, old(z.device))
    ensures if created then Joined(n, old(z.State()), z.State()) else z.State() == old(z.State())
  {
    ghost var s := z.State();
    created := z.CreateNode(n);
    if !created { return; }
    CreateDefault(z, n, s);
  }

  method CreateDefault(z: Gateway, n: Ieee, ghost s: State)
    requires z.Shape() && WellMapped(z.mapping) && Inv(z.mapping, s) && n !in s.nodes && z.State() == NodeAdded(s, n)
    modifies z`section, z`log, z`device, z`rows
    ensures z.Valid() && Joined(n, s, z.State()) && SameObjects(z, old(z.device))
  {
    JoinKeeps(z.mapping, s, n);
    assert z.SubIdentifiers(n) == {};
    AllocationUnique({}, 0);
    var d := z.CreateNextDevice(n);
  }

  /** The node and all its devices are gone; the rest is untouched. */
  ghost predicate Left(n: Ieee, before: State, after: State) {
    && after.nodes == before.nodes - {n}
    && after.rows == map a <- before.rows | a.ieee != n :: before.rows[a]
  }

  lemma LeaveKeeps(m: Mapping, s: State, t: State, n: Ieee)
    requires Inv(m, t) && t.rows == s.rows - DevicesOf(s.rows, n) && t.nodes == s.nodes
    ensures Inv(m, NodeRemoved(t, n)) && NodeRemoved(t, n).rows == t.rows && Left(n, s, NodeRemoved(t, n))
  {
    WithoutDevicesOf(s.rows, n, s.rows);
    NodeRemovedInv(m, t, n);
  }

  method ReceiveNodeLeave(z: Gateway, n: Ieee) returns (known: bool)
    requires z.Valid()
    modifies z`node, z`section, z`log, z`device, z`rows, z.device.Values
    ensures z.Valid() && known == (n in old(z.node)) && SameObjects(z, old(z.device))
    ensures if known then Left(n, old(z.State()), z.State()) else z.State() == old(z.State())
  {
    known := n in z.node;
    if !known { return; }
    ghost var s := z.State();
    RemoveAll(z, n);
    LeaveKeeps(z.mapping, s, z.State(), n);
    var found := z.RemoveNode(n);
  }

  function DevicesOf(rows: Rows, n: Ieee): set<Address> {
    set a | a in rows && a.ieee == n
  }

  lemma WithoutDevicesOf<V>(rows: Rows, n: Ieee, table: map<Address, V>)
    requires table.Keys == rows.Keys
    ensures table - DevicesOf(rows, n) == map a <- table | a.ieee != n :: table[a]
  {
  }

  method RemoveAll(z: Gateway, n: Ieee)
    requires z.Valid()
    modifies z`section, z`log, z`device, z`rows, z.device.Values
    ensures z.Valid() && z.rows == old(z.rows) - DevicesOf(old(z.rows), n)
    ensures z.device == old(z.device) - DevicesOf(old(z.rows), n)
  {
    var devices := GetDevicesOnNode(z, n);
    RemoveListed(z, devices);
  }

  method GetDevicesOnNode(z: Gateway, n: Ieee) returns (devices: seq<Address>)
    requires z.Shape()
    ensures Distinct(devices) && Elements(devices) == DevicesOf(z.rows, n)
  {
    devices := InSomeOrder(set a | a in z.device && a.ieee == n);
  }
}
