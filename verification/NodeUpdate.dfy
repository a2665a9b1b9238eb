/** Reconciling a node's devices with its inventory, in the table (updateNodeTable of enumerate_device.go). */
module NodeUpdate {
  import opened Wrappers
  import opened Keys
  import opened Factory
  import opened EventLog
  import opened Persistence
  import opened Roster
  import opened Sequences
  import opened GatewayState
  import opened Table

  /** The node's devices as the reconciliation sees them. */
  function RosterOf(rows: Rows, n: Ieee): Devices {
    map s: Byte | 0 <= s < 256 && Address(n, s) in rows :: Entry(rows[Address(n, s)].id, rows[Address(n, s)].isSet)
  }

  lemma RosterSound(m: Mapping, nodes: set<Ieee>, rows: Rows, n: Ieee)
    requires Named(m, nodes, rows)
    ensures Sound(RosterOf(rows, n))
  {
    var r := RosterOf(rows, n);
    forall s <- r, t <- r | r[s].isSet && r[t].isSet && r[s].id == r[t].id ensures s == t {
      assert Address(n, s) == Address(n, t);
    }
  }

  lemma RosterAfterWrite(rows: Rows, n: Ieee, s: Byte, row: Row)
    ensures RosterOf(rows[Address(n, s) := row], n) == RosterOf(rows, n)[s := Entry(row.id, row.isSet)]
  {
  }

  /** Only devices of the node changed: others keep their rows, and its own keep their capabilities or start bare. */
  ghost predicate OnlyIdsOf(n: Ieee, before: Rows, after: Rows) {
    && (forall a: Address | a.ieee != n :: (a in after <==> a in before) && (a in before ==> after[a] == before[a]))
    && (forall a <- after | a.ieee == n :: after[a].held == if a in before then before[a].held else map[])
  }

  /** One iteration order over the node's devices. */
  method DeviceOrder(z: Gateway, n: Ieee) returns (order: seq<Byte>)
    requires z.Shape()
    ensures Distinct(order) && forall s :: s in order <==> s in RosterOf(z.rows, n)
  {
    order := InSomeOrder(z.SubIdentifiers(n));
    forall s ensures s in order <==> s in RosterOf(z.rows, n) {
      assert s in order <==> s in Elements(order);
      if s in RosterOf(z.rows, n) { assert Address(n, s).sub in z.SubIdentifiers(n); }
    }
  }

  /** The devices of the node without an id, in some order. */
  method FindUnset(z: Gateway, n: Ieee) returns (unset: seq<Byte>)
    requires z.Shape()
    ensures UnsetOrder(RosterOf(z.rows, n), unset)
  {
    unset := [];
    var order := DeviceOrder(z, n);
    ghost var r := RosterOf(z.rows, n);
    for k := 0 to |order|
      invariant Distinct(unset)
      invariant forall s :: s in unset <==> s in order[..k] && s in r && !r[s].isSet
    {
      Prefix(order, k);
      if !z.device[Address(n, order[k])].deviceIdSet {
        unset := unset + [order[k]];
      }
    }
    Whole(order);
  }

  /** The first device, in some order, that carries the id; a device without an id reads as carrying 0. */
  method FindMatch(z: Gateway, n: Ieee, i: Byte) returns (found: bool, s: Byte)
    requires z.Shape()
    ensures !found ==> forall t <- RosterOf(z.rows, n) :: RosterOf(z.rows, n)[t].id != i
    ensures found ==> s in RosterOf(z.rows, n) && RosterOf(z.rows, n)[s].id == i
  {
    var order := DeviceOrder(z, n);
    for k := 0 to |order|
      invariant forall t <- order[..k] :: t in RosterOf(z.rows, n) && RosterOf(z.rows, n)[t].id != i
    {
      Prefix(order, k);
      if z.device[Address(n, order[k])].deviceId == i { return true, order[k]; }
    }
    Whole(order);
    return false, 0;
  }

  method MatchExisting(z: Gateway, n: Ieee, ids: seq<Byte>) returns (chosen: map<Byte, Byte>)
    requires z.Shape()
    ensures Candidates(RosterOf(z.rows, n), ids, chosen)
  {
    chosen := map[];
    ghost var r := RosterOf(z.rows, n);
    for k := 0 to |ids|
      invariant forall i :: i in chosen <==> i in ids[..k] && exists s <- r :: r[s].id == i
      invariant forall i <- chosen :: chosen[i] in r && r[chosen[i]].id == i
    {
      Prefix(ids, k);
      var found, s := FindMatch(z, n, ids[k]);
      if found { chosen := chosen[ids[k] := s]; }
    }
    Whole(ids);
  }

  // ---- Giving ids to devices ----

  lemma SubIdentifiersAreRoster(z: Gateway, n: Ieee)
    requires z.Shape()
    ensures z.SubIdentifiers(n) == RosterOf(z.rows, n).Keys
  {
    forall s: Byte ensures s in z.SubIdentifiers(n) <==> s in RosterOf(z.rows, n) {
      if s in RosterOf(z.rows, n) { assert Address(n, s).sub in z.SubIdentifiers(n); }
    }
  }

  ghost predicate NobodyHas(rows: Rows, n: Ieee, i: Byte) {
    forall b <- rows | b.ieee == n :: rows[b].id != i
  }

  /** Where the id goes: the first device without one, else a free sub-identifier. */
  function Target(q: Plan): Byte {
    if q.unset != [] then q.unset[0] else NextSubIdentifier(q.devices.Keys)
  }

  /** An unmapped inventory id is nobody's, and creating a device for it takes a free sub-identifier. */
  lemma TargetFree(rows: Rows, n: Ieee, r: Devices, ids: set<Byte>, q: Plan, i: Byte)
    requires RosterOf(rows, n) == q.devices && Assigning(r, ids, q) && i in ids && i !in q.mapping
    ensures NobodyHas(rows, n, i)
    ensures q.unset == [] ==> Address(n, Target(q)) !in rows
    ensures q.unset != [] ==> Address(n, Target(q)) in rows
  {
    AssignStep(r, ids, i, q);
    forall b <- rows | b.ieee == n ensures rows[b].id != i {
      assert b == Address(n, b.sub) && b.sub in q.devices;
      assert q.devices[b.sub].id == rows[b].id;
    }
    assert q.unset == [] ==> Target(q) !in RosterOf(rows, n);
  }

  function Given(rows: Rows, a: Address, i: Byte): Rows {
    rows[a := (if a in rows then rows[a] else NEW_ROW).(id := i, isSet := true)]
  }

  lemma GivenExisting(rows: Rows, a: Address, i: Byte)
    requires a in rows
    ensures rows[a := rows[a].(id := i, isSet := true)] == Given(rows, a, i)
  {
  }

  lemma GivenNew(rows: Rows, a: Address, i: Byte)
    requires a !in rows
    ensures Given(rows[a := NEW_ROW], a, i) == Given(rows, a, i)
  {
  }

  lemma AssignedRoster(rows: Rows, n: Ieee, q: Plan, i: Byte)
    requires RosterOf(rows, n) == q.devices && i !in q.mapping && NobodyHas(rows, n, i)
    requires q.unset == [] ==> Address(n, Target(q)) !in rows
    requires q.unset != [] ==> Address(n, Target(q)) in rows
    ensures var after := Given(rows, Address(n, Target(q)), i);
            RosterOf(after, n) == AssignOne(q, i).devices && OnlyIdsOf(n, rows, after)
  {
    RosterAfterWrite(rows, n, Target(q), Given(rows, Address(n, Target(q)), i)[Address(n, Target(q))]);
  }

  /** The table after devices were made at some addresses: every other device is the same object. */
  ghost predicate Built(before: map<Address, Device>, after: map<Address, Device>, created: set<Address>) {
    && (forall a :: a in after <==> a in before || a in created)
    && forall a <- after | a !in created :: after[a] == before[a]
  }

  lemma BuiltMore(before: map<Address, Device>, mid: map<Address, Device>, after: map<Address, Device>,
                  created: set<Address>, more: set<Address>)
    requires Built(before, mid, created) && Built(mid, after, more)
    ensures Built(before, after, created + more)
  {
  }

  /** What the matching loops hand to the assignment loop. */
  ghost predicate Matched(rows: Rows, n: Ieee, ids: seq<Byte>, q: Plan) {
    && q.devices == RosterOf(rows, n) && Sound(q.devices)
    && Candidates(q.devices, ids, q.mapping) && UnsetOrder(q.devices, q.unset)
  }

  lemma OnlyIdsOfTransitive(n: Ieee, a: Rows, b: Rows, c: Rows)
    requires OnlyIdsOf(n, a, b) && OnlyIdsOf(n, b, c) && a.Keys <= b.Keys
    ensures OnlyIdsOf(n, a, c)
  {
  }

  // ---- The assignment loop ----

  /** The loop's variables: the gateway, the mapping, the devices still without an id, and where new ones went. */
  datatype Loop = Loop(state: State, mapping: map<Byte, Byte>, unset: seq<Byte>, created: set<Address>)

  ghost predicate UnsetKnown(l: Loop, n: Ieee) {
    forall s <- l.unset :: Address(n, s) in l.state.rows
  }

  /** One round: an unmapped id goes to the first device without one, else to a new device. */
  ghost function RoundOne(l: Loop, n: Ieee, i: Byte): (r: Loop)
    requires UnsetKnown(l, n)
    ensures UnsetKnown(r, n)
  {
    if i in l.mapping then l
    else if l.unset != [] then
      Loop(IdSet(l.state, Address(n, l.unset[0]), i), l.mapping[i := l.unset[0]], l.unset[1..], l.created)
    else
      var s := NextSubIdentifier(RosterOf(l.state.rows, n).Keys);
      Loop(IdSet(DeviceCreated(l.state, Address(n, s)), Address(n, s), i), l.mapping[i := s], [],
           l.created + {Address(n, s)})
  }

  ghost function Rounds(l: Loop, n: Ieee, ids: seq<Byte>): (r: Loop)
    requires UnsetKnown(l, n)
    ensures UnsetKnown(r, n)
    decreases |ids|
  {
    if ids == [] then l else RoundOne(Rounds(l, n, ids[..|ids| - 1]), n, ids[|ids| - 1])
  }

  /** The loop carries out the plan: the table holds the plan so far, and devices were made only at free addresses. */
  ghost predicate Follows(n: Ieee, before: Rows, l: Loop, p: Plan) {
    && RosterOf(l.state.rows, n) == p.devices && l.mapping == p.mapping && l.unset == p.unset
    && OnlyIdsOf(n, before, l.state.rows)
    && (forall a :: a in l.state.rows <==> a in before || a in l.created)
    && (forall a <- l.created :: a.ieee == n && a !in before)
  }

  lemma CreatedRoundKeeps(m: Mapping, s: State, a: Address, i: Byte)
    requires Inv(m, s) && a.ieee in s.nodes && a !in s.rows && NobodyHas(s.rows, a.ieee, i)
    ensures var r := IdSet(DeviceCreated(s, a), a, i);
            Inv(m, r) && r.nodes == s.nodes && r.rows == Given(s.rows, a, i)
  {
    var created := DeviceCreated(s, a);
    DeviceCreatedInv(m, s, a);
    IdSetInv(m, created, a, i);
    GivenNew(s.rows, a, i);
    GivenExisting(created.rows, a, i);
  }

  /** One round keeps the gateway's invariants, because its target is free to take the id. */
  lemma RoundKeeps(m: Mapping, before: Rows, n: Ieee, l: Loop, p: Plan, i: Byte)
    requires Inv(m, l.state) && n in l.state.nodes && Follows(n, before, l, p) && UnsetKnown(l, n)
    requires i !in p.mapping && NobodyHas(l.state.rows, n, i)
    requires p.unset == [] ==> Address(n, Target(p)) !in l.state.rows
    ensures var r := RoundOne(l, n, i);
            && Inv(m, r.state) && r.state.nodes == l.state.nodes
            && r.state.rows == Given(l.state.rows, Address(n, Target(p)), i)
  {
    var a := Address(n, Target(p));
    if p.unset == [] {
      CreatedRoundKeeps(m, l.state, a, i);
    } else {
      IdSetInv(m, l.state, a, i);
      GivenExisting(l.state.rows, a, i);
    }
  }

  lemma RoundFollows(before: Rows, n: Ieee, l: Loop, p: Plan, i: Byte)
    requires Follows(n, before, l, p) && UnsetKnown(l, n) && i !in p.mapping && NobodyHas(l.state.rows, n, i)
    requires p.unset == [] ==> Address(n, Target(p)) !in l.state.rows
    requires RoundOne(l, n, i).state.rows == Given(l.state.rows, Address(n, Target(p)), i)
    ensures Follows(n, before, RoundOne(l, n, i), AssignOne(p, i))
  {
    assert p.unset != [] ==> Address(n, Target(p)) in l.state.rows;
    AssignedRoster(l.state.rows, n, p, i);
    OnlyIdsOfTransitive(n, before, l.state.rows, RoundOne(l, n, i).state.rows);
  }

  /** The assignment loop carries out the plan and keeps the invariants, through every round. */
  lemma {:induction false} RoundsFollow(m: Mapping, s: State, n: Ieee, all: seq<Byte>, q: Plan, ids: seq<Byte>)
    requires Inv(m, s) && n in s.nodes && Matched(s.rows, n, all, q) && Elements(ids) <= Elements(all)
    requires UnsetKnown(Loop(s, q.mapping, q.unset, {}), n)
    ensures var l := Rounds(Loop(s, q.mapping, q.unset, {}), n, ids);
            Inv(m, l.state) && l.state.nodes == s.nodes && Follows(n, s.rows, l, Assign(q, ids))
    decreases |ids|
  {
    if ids != [] {
      var init, i := ids[..|ids| - 1], ids[|ids| - 1];
      assert i in Elements(ids) && forall j <- Elements(init) :: j in Elements(ids);
      RoundsFollow(m, s, n, all, q, init);
      var l, p := Rounds(Loop(s, q.mapping, q.unset, {}), n, init), Assign(q, init);
      if i !in p.mapping {
        AssignInvariant(q.devices, all, init, q.mapping, q.unset);
        TargetFree(l.state.rows, n, q.devices, Elements(all), p, i);
        RoundKeeps(m, s.rows, n, l, p, i);
        RoundFollows(s.rows, n, l, p, i);
      }
    }
  }

  method CreateWithId(z: Gateway, n: Ieee, i: Byte) returns (d: Device)
    requires z.Shape()
    modifies z`section, z`log, z`device, z`rows
    ensures fresh(d) && d.address == Address(n, NextSubIdentifier(RosterOf(old(z.rows), n).Keys))
    ensures z.device == old(z.device)[d.address := d]
    ensures z.Shape() && z.State() == IdSet(DeviceCreated(old(z.State()), d.address), d.address, i)
  {
    SubIdentifiersAreRoster(z, n);
    d := z.CreateNextDevice(n);
    z.SetDeviceUniqueId(d, i);
  }

  method AssignId(z: Gateway, n: Ieee, i: Byte, mapping0: map<Byte, Byte>, unset: seq<Byte>,
                  ghost created: set<Address>)
    returns (mapping: map<Byte, Byte>, left: seq<Byte>, ghost added: set<Address>)
    requires z.Shape() && UnsetKnown(Loop(z.State(), mapping0, unset, created), n)
    modifies z`section, z`log, z`device, z`rows, z.device.Values
    ensures Loop(z.State(), mapping, left, created + added) ==
            RoundOne(Loop(old(z.State()), mapping0, unset, created), n, i)
    ensures z.Shape() && Built(old(z.device), z.device, added)
    ensures forall a <- added :: a in z.device && fresh(z.device[a])
  {
    mapping, left, added := mapping0, unset, {};
    assert created + {} == created;
    if i in mapping { return; }
    if |left| > 0 {
      var s := left[0];
      z.SetDeviceUniqueId(z.device[Address(n, s)], i);
      mapping, left := mapping[i := s], left[1..];
    } else {
      var d := CreateWithId(z, n, i);
      mapping, added := mapping[i := d.address.sub], {d.address};
    }
  }

  method AssignIds(z: Gateway, n: Ieee, ids: seq<Byte>, chosen: map<Byte, Byte>, unset: seq<Byte>)
    returns (mapping: map<Byte, Byte>, ghost left: seq<Byte>, ghost created: set<Address>)
    requires z.Shape() && UnsetKnown(Loop(z.State(), chosen, unset, {}), n)
    modifies z`section, z`log, z`device, z`rows, z.device.Values
    ensures Loop(z.State(), mapping, left, created) == Rounds(Loop(old(z.State()), chosen, unset, {}), n, ids)
    ensures z.Shape() && Built(old(z.device), z.device, created)
    ensures forall a <- created :: a in z.device && fresh(z.device[a])
  {
    mapping, created := chosen, {};
    var waiting := unset;
    ghost var start := Loop(z.State(), chosen, unset, {});
    for k := 0 to |ids|
      invariant Loop(z.State(), mapping, waiting, created) == Rounds(start, n, ids[..k])
      invariant z.Shape() && Built(old(z.device), z.device, created)
      invariant forall a <- created :: a in z.device && fresh(z.device[a])
    {
      Shorter(ids, k);
      ghost var table := z.device;
      ghost var added;
      mapping, waiting, added := AssignId(z, n, ids[k], mapping, waiting, created);
      BuiltMore(old(z.device), table, z.device, created, added);
      created := created + added;
    }
    Whole(ids);
    left := waiting;
  }

  // ---- What giving ids and removing devices does to the tree ----

  /** Devices of other nodes are as before in the tree, and the node's devices have the capability sections they had. */
  ghost predicate KeepsSections(n: Ieee, before: Store, after: Store) {
    && (forall a: Address | a.ieee != n :: DeviceAt(after, a) == DeviceAt(before, a))
    && (forall a: Address | DeviceAt(after, a).Some? :: SectionsIn(after, a) == SectionsIn(before, a))
  }

  ghost predicate Grown(n: Ieee, before: Store, after: Store) {
    KeepsSections(n, before, after) && forall a: Address | DeviceAt(before, a).Some? :: DeviceAt(after, a).Some?
  }

  lemma GrownTransitive(n: Ieee, t: Store, u: Store, v: Store)
    requires Grown(n, t, u) && Grown(n, u, v)
    ensures Grown(n, t, v)
  {
  }

  lemma CreatedGrows(s: State, a: Address)
    ensures Grown(a.ieee, s.section, DeviceCreated(s, a).section)
  {
  }

  lemma IdSetGrows(s: State, a: Address, i: int)
    requires a in s.rows
    ensures Grown(a.ieee, s.section, IdSet(s, a, i).section)
  {
    var t := SectionForDevice(s.section, a);
    PutDeviceAt(t, a, DeviceAt(t, a).value.(uniqueId := Some(i)));
  }

  lemma RoundGrows(l: Loop, n: Ieee, i: Byte)
    requires UnsetKnown(l, n)
    ensures Grown(n, l.state.section, RoundOne(l, n, i).state.section)
  {
    if i !in l.mapping {
      if l.unset != [] {
        IdSetGrows(l.state, Address(n, l.unset[0]), i);
      } else {
        var a := Address(n, NextSubIdentifier(RosterOf(l.state.rows, n).Keys));
        CreatedGrows(l.state, a);
        IdSetGrows(DeviceCreated(l.state, a), a, i);
        GrownTransitive(n, l.state.section, DeviceCreated(l.state, a).section, RoundOne(l, n, i).state.section);
      }
    }
  }

  lemma {:induction false} RoundsGrow(l: Loop, n: Ieee, ids: seq<Byte>)
    requires UnsetKnown(l, n)
    ensures Grown(n, l.state.section, Rounds(l, n, ids).state.section)
    decreases |ids|
  {
    if ids != [] {
      var r := Rounds(l, n, ids[..|ids| - 1]);
      RoundsGrow(l, n, ids[..|ids| - 1]);
      RoundGrows(r, n, ids[|ids| - 1]);
      GrownTransitive(n, l.state.section, r.state.section, Rounds(l, n, ids).state.section);
    }
  }

  /** Exactly these devices are gone from the tree. */
  ghost predicate Pruned(before: Store, after: Store, gone: set<Address>) {
    forall a: Address :: DeviceAt(after, a) == if a in gone then None else DeviceAt(before, a)
  }

  lemma PrunedKeeps(n: Ieee, t: Store, u: Store, v: Store, gone: set<Address>)
    requires Grown(n, t, u) && Pruned(u, v, gone) && forall a <- gone :: a.ieee == n
    ensures KeepsSections(n, t, v)
  {
  }

  lemma RemovedPrunes(t: Store, a: Address)
    ensures Pruned(t, Persistence.RemoveDevice(t, a), {a})
  {
  }

  // ---- Removing what the inventory no longer has ----

  function StaleOf(rows: Rows, n: Ieee, mapped: set<Byte>): set<Address> {
    set a | a in rows && a.ieee == n && rows[a].id !in mapped
  }

  method RemoveOne(z: Gateway, a: Address)
    requires z.Valid() && a in z.device
    modifies z`section, z`log, z`device, z`rows, z.device[a]
    ensures z.Valid() && z.rows == old(z.rows) - {a} && z.device == old(z.device) - {a}
    ensures Pruned(old(z.section), z.section, {a})
  {
    ghost var before := z.State();
    RemovedPrunes(z.section, a);
    var found, detached := z.RemoveDevice(a);
    DeviceRemovedInv(z.mapping, before, a, detached);
    DeviceRemovedEffect(before, a, detached);
  }

  lemma MinusMore<K, V>(m: map<K, V>, s: set<K>, k: K)
    ensures m - s - {k} == m - (s + {k})
  {
  }

  method FindStale(z: Gateway, n: Ieee, mapped: set<Byte>) returns (stale: seq<Address>)
    requires z.Shape()
    ensures Distinct(stale) && Elements(stale) == StaleOf(z.rows, n, mapped)
  {
    stale := [];
    var order := DeviceOrder(z, n);
    for k := 0 to |order|
      invariant Distinct(stale)
      invariant forall a :: a in stale <==> a.ieee == n && a.sub in order[..k] && a in z.rows && z.rows[a].id !in mapped
    {
      var a := Address(n, order[k]);
      Prefix(order, k);
      if z.device[a].deviceId !in mapped { stale := stale + [a]; }
    }
    Whole(order);
    forall a ensures a in Elements(stale) <==> a in StaleOf(z.rows, n, mapped) {
      if a in StaleOf(z.rows, n, mapped) { assert a.sub in RosterOf(z.rows, n); }
    }
  }

  method RemoveStale(z: Gateway, n: Ieee, mapped: set<Byte>)
    requires z.Valid()
    modifies z`section, z`log, z`device, z`rows, z.device.Values
    ensures z.Valid() && z.rows == old(z.rows) - StaleOf(old(z.rows), n, mapped)
    ensures z.device == old(z.device) - StaleOf(old(z.rows), n, mapped)
    ensures Pruned(old(z.section), z.section, StaleOf(old(z.rows), n, mapped))
  {
    var stale := FindStale(z, n, mapped);
    RemoveListed(z, stale);
  }

  method RemoveListed(z: Gateway, stale: seq<Address>)
    requires z.Valid() && Distinct(stale) && Elements(stale) <= z.device.Keys
    modifies z`section, z`log, z`device, z`rows, z.device.Values
    ensures z.Valid() && z.rows == old(z.rows) - Elements(stale)
    ensures z.device == old(z.device) - Elements(stale)
    ensures Pruned(old(z.section), z.section, Elements(stale))
  {
    assert Elements(stale[..0]) == {};
    ghost var tree := z.section;
    for k := 0 to |stale|
      invariant z.Valid()
      invariant z.rows == old(z.rows) - Elements(stale[..k]) && z.device == old(z.device) - Elements(stale[..k])
      invariant Pruned(tree, z.section, Elements(stale[..k]))
    {
      Prefix(stale, k);
      MinusMore(old(z.rows), Elements(stale[..k]), stale[k]);
      MinusMore(old(z.device), Elements(stale[..k]), stale[k]);
      RemoveOne(z, stale[k]);
    }
    Whole(stale);
  }

  // ---- The whole reconciliation ----

  lemma StaleRoster(rows: Rows, n: Ieee, p: Plan)
    requires RosterOf(rows, n) == p.devices
    ensures RosterOf(rows - StaleOf(rows, n, p.mapping.Keys), n) ==
            map s | s in p.devices && !Stale(p, s) :: p.devices[s]
  {
  }

  lemma StaleKeeps(n: Ieee, before: Rows, rows: Rows, stale: set<Address>)
    requires OnlyIdsOf(n, before, rows) && forall a <- stale :: a.ieee == n
    ensures OnlyIdsOf(n, before, rows - stale)
  {
  }

  /** The mapping's devices, at the sub-identifiers of the plan. */
  ghost predicate Mapped(table: map<Address, Device>, n: Ieee, subs: map<Byte, Byte>, mapping: map<Byte, Device>) {
    && mapping.Keys == subs.Keys
    && forall i <- mapping :: mapping[i].address == Address(n, subs[i])
                              && (mapping[i].address in table ==> table[mapping[i].address] == mapping[i])
  }

  /** Every mapped id has its device in the table. */
  ghost predicate MappingKnown(l: Loop, n: Ieee) {
    forall i <- l.mapping :: Address(n, l.mapping[i]) in l.state.rows
  }

  lemma RoundMaps(l: Loop, n: Ieee, i: Byte)
    requires UnsetKnown(l, n) && MappingKnown(l, n)
    ensures MappingKnown(RoundOne(l, n, i), n)
  {
    if i !in l.mapping && l.unset != [] { assert l.unset[0] in l.unset; }
  }

  lemma {:induction false} RoundsMap(l: Loop, n: Ieee, ids: seq<Byte>)
    requires UnsetKnown(l, n) && MappingKnown(l, n)
    ensures MappingKnown(Rounds(l, n, ids), n)
    decreases |ids|
  {
    if ids != [] {
      RoundsMap(l, n, ids[..|ids| - 1]);
      RoundMaps(Rounds(l, n, ids[..|ids| - 1]), n, ids[|ids| - 1]);
    }
  }

  /** What the loops start from. */
  ghost function Begin(s: State, chosen: map<Byte, Byte>, unset: seq<Byte>): Loop {
    Loop(s, chosen, unset, {})
  }

  lemma BeginKnown(s: State, n: Ieee, ids: seq<Byte>, chosen: map<Byte, Byte>, unset: seq<Byte>)
    requires Candidates(RosterOf(s.rows, n), ids, chosen) && UnsetOrder(RosterOf(s.rows, n), unset)
    ensures UnsetKnown(Begin(s, chosen, unset), n)
    ensures MappingKnown(Rounds(Begin(s, chosen, unset), n, ids), n)
  {
    RoundsMap(Begin(s, chosen, unset), n, ids);
  }

  /** The loops of the reconciliation up to the removals: find, match, then reuse or create. */
  method AssignDevices(z: Gateway, n: Ieee, ids: seq<Byte>)
    returns (mapping: map<Byte, Device>, ghost chosen: map<Byte, Byte>, ghost unset: seq<Byte>,
             ghost created: set<Address>)
    requires z.Shape()
    modifies z`section, z`log, z`device, z`rows, z.device.Values
    ensures Candidates(RosterOf(old(z.rows), n), ids, chosen) && UnsetOrder(RosterOf(old(z.rows), n), unset)
    ensures UnsetKnown(Begin(old(z.State()), chosen, unset), n)
    ensures var l := Rounds(Begin(old(z.State()), chosen, unset), n, ids);
            z.State() == l.state && created == l.created && Mapped(z.device, n, l.mapping, mapping)
    ensures z.Shape() && Built(old(z.device), z.device, created)
    ensures forall a <- created :: a in z.device && fresh(z.device[a])
  {
    var waiting := FindUnset(z, n);
    var found := MatchExisting(z, n, ids);
    chosen, unset := found, waiting;
    BeginKnown(z.State(), n, ids, found, waiting);
    var subs;
    ghost var left;
    subs, left, created := AssignIds(z, n, ids, found, waiting);
    mapping := map i <- subs :: z.device[Address(n, subs[i])];
  }

  /** Each device that was there and still is, is the same object; every other device is new. */
  twostate predicate SameObjects(z: Gateway, before: map<Address, Device>)
    reads z
  {
    && (forall a <- z.device | a in before :: z.device[a] == before[a])
    && (forall a <- z.device | a !in before :: fresh(z.device[a]))
  }

  /** Why the loops leave a valid table that carries out the assignment plan. */
  lemma AssignedOk(m: Mapping, s: State, n: Ieee, ids: seq<Byte>, chosen: map<Byte, Byte>, unset: seq<Byte>)
    requires Inv(m, s) && n in s.nodes && UnsetKnown(Begin(s, chosen, unset), n)
    requires Candidates(RosterOf(s.rows, n), ids, chosen) && UnsetOrder(RosterOf(s.rows, n), unset)
    ensures var l := Rounds(Begin(s, chosen, unset), n, ids);
            var p := Assign(Plan(RosterOf(s.rows, n), chosen, unset), ids);
            && Inv(m, l.state) && l.state.nodes == s.nodes
            && RosterOf(l.state.rows, n) == p.devices && l.mapping == p.mapping
            && OnlyIdsOf(n, s.rows, l.state.rows) && l.created !! s.rows.Keys
  {
    RosterSound(m, s.nodes, s.rows, n);
    RoundsFollow(m, s, n, ids, Plan(RosterOf(s.rows, n), chosen, unset), ids);
  }

  /** Reconciles the node's devices with the inventory ids; `chosen` and `unset` are the map iterations' choices. */
  method UpdateNodeTable(z: Gateway, n: Ieee, ids: seq<Byte>)
    returns (mapping: map<Byte, Device>, ghost chosen: map<Byte, Byte>, ghost unset: seq<Byte>)
    requires z.Valid() && n in z.node
    modifies z`section, z`log, z`device, z`rows, z.device.Values
    ensures z.Valid()
    ensures Candidates(RosterOf(old(z.rows), n), ids, chosen) && UnsetOrder(RosterOf(old(z.rows), n), unset)
    ensures var p := Reconciled(RosterOf(old(z.rows), n), ids, chosen, unset);
            RosterOf(z.rows, n) == p.devices && Mapped(z.device, n, p.mapping, mapping)
    ensures OnlyIdsOf(n, old(z.rows), z.rows) && KeepsSections(n, old(z.section), z.section)
    ensures SameObjects(z, old(z.device))
  {
    ghost var before := z.State();
    ghost var created;
    mapping, chosen, unset, created := AssignDevices(z, n, ids);
    AssignedOk(z.mapping, before, n, ids, chosen, unset);
    RoundsGrow(Begin(before, chosen, unset), n, ids);
    ghost var rows, tree := z.rows, z.section;
    ghost var p := Assign(Plan(RosterOf(old(z.rows), n), chosen, unset), ids);
    StaleRoster(rows, n, p);
    StaleKeeps(n, old(z.rows), rows, StaleOf(rows, n, mapping.Keys));
    RemoveStale(z, n, mapping.Keys);
    PrunedKeeps(n, before.section, tree, z.section, StaleOf(rows, n, mapping.Keys));
  }
}
