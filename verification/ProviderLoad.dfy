/** Rebuilding the table from the persisted tree at start (provider_load.go). */
module ProviderLoad {
  import opened Wrappers
  import opened Keys
  import opened Factory
  import opened EventLog
  import opened Persistence
  import opened Sequences
  import opened CapabilityPlan
  import opened GatewayState
  import opened Table

  /** Whether the capability's `Load` on that device reports that it attached. */
  type Loads = (Address, Category) -> bool

  // ---- What a stored device loads as ----

  /** The capability's section names an implementation; a failed attachment may have left it there. */
  predicate NamedIn(d: DeviceSection, c: Category) {
    c in d.capability && d.capability[c].implementation.Some?
  }

  /** The section names a known implementation and its `Load` attaches it. */
  predicate Restores(m: Mapping, d: DeviceSection, a: Address, c: Category, loads: Loads) {
    NamedIn(d, c) && d.capability[c].implementation.value in m && loads(a, c)
  }

  function RestoredHeld(m: Mapping, d: DeviceSection, a: Address, loads: Loads, among: set<Category>): Held {
    map c | c in among && Restores(m, d, a, c, loads) :: Implementation(d.capability[c].implementation.value, c)
  }

  function LoadedRow(m: Mapping, d: DeviceSection, a: Address, loads: Loads): Row {
    Row(if d.uniqueId.Some? then d.uniqueId.value else 0, d.uniqueId.Some?,
        RestoredHeld(m, d, a, loads, d.capability.Keys), map[])
  }

  /** What a run leaves in the tree: sections under their own capability, endpoint numbers unique on a node. */
  ghost predicate Sane(m: Mapping, t: Store) {
    && (forall a | DeviceAt(t, a).Some? :: Filed(m, DeviceAt(t, a).value))
    && (forall a | DeviceAt(t, a).Some? && DeviceAt(t, a).value.uniqueId.Some? ::
          0 <= DeviceAt(t, a).value.uniqueId.value < 256)
    && (forall a, b | DeviceAt(t, a).Some? && DeviceAt(t, b).Some? && a.ieee == b.ieee ::
          DeviceAt(t, a).value.uniqueId == DeviceAt(t, b).value.uniqueId != None ==> a == b)
  }

  lemma InvSane(m: Mapping, s: State)
    requires Inv(m, s)
    ensures Sane(m, s.section)
  {
    forall a | DeviceAt(s.section, a).Some?
      ensures a in s.rows && SectionMatches(m, s.rows[a], DeviceAt(s.section, a).value) { }
  }

  // ---- The loading so far ----

  ghost predicate Loaded(m: Mapping, t: Store, loads: Loads, done: set<Address>, s: State) {
    && s.section == t && s.nodes <= t.Keys && Logged(s.rows, s.log)
    && (forall a :: a in s.rows <==> a in done)
    && (forall a <- done :: a.ieee in s.nodes && DeviceAt(t, a).Some?)
    && (forall a <- done :: s.rows[a] == LoadedRow(m, DeviceAt(t, a).value, a, loads))
  }

  /** Everything in the tree is loaded. */
  ghost predicate Complete(m: Mapping, t: Store, loads: Loads, s: State) {
    && s.nodes == t.Keys && s.section == t && Logged(s.rows, s.log)
    && (forall a :: a in s.rows <==> DeviceAt(t, a).Some?)
    && (forall a <- s.rows :: s.rows[a] == LoadedRow(m, DeviceAt(t, a).value, a, loads))
  }

  lemma CompleteInv(m: Mapping, t: Store, loads: Loads, s: State)
    requires WellMapped(m) && Sane(m, t) && Complete(m, t, loads, s)
    ensures Inv(m, s)
  {
    forall a <- s.rows ensures SectionMatches(m, s.rows[a], DeviceAt(t, a).value) { }
    forall a <- s.rows ensures WellHeld(m, s.rows[a].held) { }
  }

  /** The same id and flag, each held capability that loads as it was, and nothing but what is named and loads. */
  ghost predicate RowRebuilt(d: DeviceSection, a: Address, loads: Loads, before: Row, after: Row) {
    && after.id == before.id && after.isSet == before.isSet
    && (forall c <- before.held | loads(a, c) :: c in after.held && after.held[c] == before.held[c])
    && (forall c :: c in after.held <==> NamedIn(d, c) && loads(a, c))
  }

  /** The same nodes and addresses, and each device rebuilt. */
  ghost predicate Rebuilt(before: State, loads: Loads, after: State) {
    && after.nodes == before.nodes && after.section == before.section
    && (forall a :: a in after.rows <==> a in before.rows)
    && (forall a <- before.rows :: DeviceAt(before.section, a).Some?)
    && (forall a <- before.rows ::
          RowRebuilt(DeviceAt(before.section, a).value, a, loads, before.rows[a], after.rows[a]))
  }

  lemma LoadedRowRebuilt(m: Mapping, d: DeviceSection, a: Address, loads: Loads, before: Row)
    requires SectionMatches(m, before, d) && (!before.isSet ==> before.id == 0) && WellHeld(m, before.held)
    ensures RowRebuilt(d, a, loads, before, LoadedRow(m, d, a, loads))
  {
  }

  /** What is loaded from the tree of a valid gateway rebuilds that gateway. */
  lemma LoadRebuilds(m: Mapping, before: State, loads: Loads, after: State)
    requires Inv(m, before) && Complete(m, before.section, loads, after)
    ensures Rebuilt(before, loads, after)
  {
    forall a <- before.rows
      ensures RowRebuilt(DeviceAt(before.section, a).value, a, loads, before.rows[a], after.rows[a])
    {
      LoadedRowRebuilt(m, DeviceAt(before.section, a).value, a, loads, before.rows[a]);
    }
  }

  lemma SameHeldIff(d: DeviceSection, a: Address, loads: Loads, before: Row, after: Row)
    requires RowRebuilt(d, a, loads, before, after)
    requires forall c <- before.held :: NamedIn(d, c)
    ensures after.held == before.held <==>
            && (forall c <- before.held :: loads(a, c))
            && (forall c | NamedIn(d, c) && loads(a, c) :: c in before.held)
  {
    if (forall c <- before.held :: loads(a, c)) && forall c | NamedIn(d, c) && loads(a, c) :: c in before.held {
      assert forall c :: c in after.held <==> c in before.held;
    }
  }

  /**
   * A restart leaves a device's capabilities as they were exactly when each held one loads and no other named one
   * does.
   */
  lemma SameCapabilitiesIff(m: Mapping, before: State, loads: Loads, after: State, a: Address)
    requires Inv(m, before) && Rebuilt(before, loads, after) && a in before.rows
    ensures var d, held := DeviceAt(before.section, a).value, before.rows[a].held;
            after.rows[a].held == held <==>
            && (forall c <- held :: loads(a, c))
            && (forall c | NamedIn(d, c) && loads(a, c) :: c in held)
  {
    var d := DeviceAt(before.section, a).value;
    assert SectionMatches(m, before.rows[a], d);
    SameHeldIff(d, a, loads, before.rows[a], after.rows[a]);
  }

  // ---- One capability, one device ----

  ghost function CapabilityLoaded(create: string -> Option<Implementation>, loads: Loads,
                                  caps: map<Category, CapabilitySection>, s: State, a: Address, c: Category): (r: State)
    requires a in s.rows && c in caps
    ensures a in r.rows
  {
    if caps[c].implementation.None? then s
    else
      var made := create(caps[c].implementation.value);
      if made.Some? && loads(a, c) then CapabilityAttached(s, a, made.value) else s
  }

  ghost function CapabilitiesLoaded(create: string -> Option<Implementation>, loads: Loads,
                                    caps: map<Category, CapabilitySection>, s: State, a: Address, cs: seq<Category>)
    : (r: State)
    requires a in s.rows && forall c <- cs :: c in caps
    ensures a in r.rows
    decreases |cs|
  {
    if cs == [] then s else
      var init := CapabilitiesLoaded(create, loads, caps, s, a, cs[..|cs| - 1]);
      CapabilityLoaded(create, loads, caps, init, a, cs[|cs| - 1])
  }

  /** Only the device's capabilities changed, and the log followed. */
  ghost predicate Restored(m: Mapping, d: DeviceSection, loads: Loads, s: State, r: State, a: Address,
                           among: set<Category>) {
    && a in s.rows && r.section == s.section && r.nodes == s.nodes && Logged(r.rows, r.log)
    && r.rows == s.rows[a := s.rows[a].(held := RestoredHeld(m, d, a, loads, among))]
  }

  lemma AttachedSameSection(s: State, a: Address, i: Implementation, d: DeviceSection)
    requires a in s.rows && DeviceAt(s.section, a) == Some(d) && i.category in d.capability
    ensures CapabilityAttached(s, a, i).section == s.section
  {
  }

  /** A restored capability's attachment, on the device's row. */
  lemma AttachedRestores(s: State, r: State, a: Address, held: Held, i: Implementation)
    requires a in s.rows && r.rows == s.rows[a := s.rows[a].(held := held)] && Logged(r.rows, r.log)
    ensures var t := CapabilityAttached(r, a, i);
            Logged(t.rows, t.log) && t.rows == s.rows[a := s.rows[a].(held := held[i.category := i])]
  {
    AttachedLogged(r, a, i);
  }

  lemma RestoreOne(m: Mapping, create: string -> Option<Implementation>, loads: Loads, d: DeviceSection,
                   s: State, r: State, a: Address, among: set<Category>, c: Category)
    requires Faithful(m, create) && Filed(m, d) && c in d.capability
    requires Restored(m, d, loads, s, r, a, among) && DeviceAt(s.section, a) == Some(d)
    ensures Restored(m, d, loads, s, CapabilityLoaded(create, loads, d.capability, r, a, c), a, among + {c})
  {
    RestoredMore(m, d, a, loads, among, c);
    if Restores(m, d, a, c, loads) {
      var i := Implementation(d.capability[c].implementation.value, c);
      AttachedSameSection(r, a, i, d);
      AttachedRestores(s, r, a, RestoredHeld(m, d, a, loads, among), i);
    }
  }

  lemma RestoredMore(m: Mapping, d: DeviceSection, a: Address, loads: Loads, among: set<Category>, c: Category)
    ensures RestoredHeld(m, d, a, loads, among + {c}) ==
            if Restores(m, d, a, c, loads)
            then RestoredHeld(m, d, a, loads, among)[c := Implementation(d.capability[c].implementation.value, c)]
            else RestoredHeld(m, d, a, loads, among)
  {
  }

  lemma {:induction false} RestoreAll(m: Mapping, create: string -> Option<Implementation>, loads: Loads,
                                      d: DeviceSection, s: State, a: Address, cs: seq<Category>)
    requires Faithful(m, create) && Filed(m, d) && forall c <- cs :: c in d.capability
    requires a in s.rows && s.rows[a].held == map[] && Logged(s.rows, s.log) && DeviceAt(s.section, a) == Some(d)
    ensures Restored(m, d, loads, s, CapabilitiesLoaded(create, loads, d.capability, s, a, cs), a, Elements(cs))
    decreases |cs|
  {
    if cs == [] {
      assert RestoredHeld(m, d, a, loads, {}) == map[];
      assert s.rows == s.rows[a := s.rows[a].(held := map[])];
    } else {
      var init, c := cs[..|cs| - 1], cs[|cs| - 1];
      Last(cs);
      RestoreAll(m, create, loads, d, s, a, init);
      var r := CapabilitiesLoaded(create, loads, d.capability, s, a, init);
      RestoreOne(m, create, loads, d, s, r, a, Elements(init), c);
    }
  }

  /** A device before its capabilities: created again, with its stored id. */
  ghost function Recreated(s: State, a: Address, id: Option<int>): (r: State)
    ensures a in r.rows
  {
    if id.Some? then IdSet(DeviceCreated(s, a), a, id.value) else DeviceCreated(s, a)
  }

  lemma RecreatedEffect(s: State, a: Address, d: DeviceSection)
    requires Logged(s.rows, s.log) && a !in s.rows && DeviceAt(s.section, a) == Some(d)
    ensures var r := Recreated(s, a, d.uniqueId);
            var row := Row(if d.uniqueId.Some? then d.uniqueId.value else 0, d.uniqueId.Some?, map[], map[]);
            && r.section == s.section && r.nodes == s.nodes && Logged(r.rows, r.log) && r.rows == s.rows[a := row]
  {
    DeviceCreatedLogged(s, a);
    var t := DeviceCreated(s, a);
    if d.uniqueId.Some? {
      var row := t.rows[a].(id := d.uniqueId.value, isSet := true);
      LoggedSameShown(t.rows, t.log, a, row);
      PutSame(s.section, a, d);
    }
  }

  lemma PutSame(t: Store, a: Address, d: DeviceSection)
    requires DeviceAt(t, a) == Some(d)
    ensures PutDevice(t, a, d) == t
  {
    assert t[a.ieee][a.sub := d] == t[a.ieee];
  }

  ghost function DeviceLoaded(create: string -> Option<Implementation>, loads: Loads, d: DeviceSection, s: State,
                              a: Address, cs: seq<Category>): State
    requires forall c <- cs :: c in d.capability
  {
    CapabilitiesLoaded(create, loads, d.capability, Recreated(s, a, d.uniqueId), a, cs)
  }

  /** The device's row becomes the stored one; tree and nodes stay, and the log follows. */
  lemma DeviceLoadedRow(m: Mapping, create: string -> Option<Implementation>, loads: Loads, d: DeviceSection, s: State,
                        a: Address, cs: seq<Category>)
    requires Faithful(m, create) && Filed(m, d) && Logged(s.rows, s.log) && a !in s.rows
             && DeviceAt(s.section, a) == Some(d)
    requires Elements(cs) == d.capability.Keys && forall c <- cs :: c in d.capability
    ensures var r := DeviceLoaded(create, loads, d, s, a, cs);
            && r.section == s.section && r.nodes == s.nodes && Logged(r.rows, r.log)
            && r.rows == s.rows[a := LoadedRow(m, d, a, loads)]
  {
    RecreatedEffect(s, a, d);
    var t := Recreated(s, a, d.uniqueId);
    RestoreAll(m, create, loads, d, t, a, cs);
    RowRestored(m, d, s.rows, t.rows, a, loads);
  }

  lemma RowRestored(m: Mapping, d: DeviceSection, before: Rows, rows: Rows, a: Address, loads: Loads)
    requires rows == before[a := Row(if d.uniqueId.Some? then d.uniqueId.value else 0, d.uniqueId.Some?, map[], map[])]
    ensures rows[a := rows[a].(held := RestoredHeld(m, d, a, loads, d.capability.Keys))] ==
            before[a := LoadedRow(m, d, a, loads)]
  {
  }

  lemma LoadedMore(m: Mapping, loads: Loads, t: Store, done: set<Address>, s: State, r: State, a: Address)
    requires Loaded(m, t, loads, done, s) && a !in done && a.ieee in s.nodes && DeviceAt(t, a).Some?
    requires r.section == s.section && r.nodes == s.nodes && Logged(r.rows, r.log)
    requires r.rows == s.rows[a := LoadedRow(m, DeviceAt(t, a).value, a, loads)]
    ensures Loaded(m, t, loads, done + {a}, r)
  {
  }

  /** Loading one more device leaves the tree alone and yields the stored row. */
  lemma DeviceLoadedOk(m: Mapping, create: string -> Option<Implementation>, loads: Loads, t: Store, done: set<Address>,
                       s: State, a: Address, cs: seq<Category>)
    requires Faithful(m, create) && Loaded(m, t, loads, done, s) && a !in done && a.ieee in s.nodes
    requires DeviceAt(t, a).Some? && Filed(m, DeviceAt(t, a).value)
             && Elements(cs) == DeviceAt(t, a).value.capability.Keys
    ensures forall c <- cs :: c in DeviceAt(t, a).value.capability
    ensures Loaded(m, t, loads, done + {a}, DeviceLoaded(create, loads, DeviceAt(t, a).value, s, a, cs))
  {
    var d := DeviceAt(t, a).value;
    forall c <- cs ensures c in d.capability { assert c in Elements(cs); }
    DeviceLoadedRow(m, create, loads, d, s, a, cs);
    LoadedMore(m, loads, t, done, s, DeviceLoaded(create, loads, d, s, a, cs), a);
  }

  // ---- The loops ----

  method LoadCapability(z: Gateway, d: Device, c: Category, section: CapabilitySection,
                        create: string -> Option<Implementation>,
                        loads: Loads, ghost caps: map<Category, CapabilitySection>)
    requires z.Shape() && z.Live(d) && c in caps && caps[c] == section
    modifies z`section, z`log, z`rows, d`capabilities
    ensures z.Shape() && z.State() == CapabilityLoaded(create, loads, caps, old(z.State()), d.address, c)
  {
    if section.implementation.Some? {
      var made := create(section.implementation.value);
      if made.Some? {
        var attached := loads(d.address, c);
        if attached { z.AttachCapability(d, made.value); }
      }
    }
  }

  method LoadCapabilities(z: Gateway, d: Device, caps: map<Category, CapabilitySection>,
                          create: string -> Option<Implementation>, loads: Loads)
    returns (ghost order: seq<Category>)
    requires z.Shape() && z.Live(d)
    modifies z`section, z`log, z`rows, d`capabilities
    ensures Elements(order) == caps.Keys && forall c <- order :: c in caps
    ensures z.Shape() && z.State() == CapabilitiesLoaded(create, loads, caps, old(z.State()), d.address, order)
  {
    var cs := InSomeOrder(caps.Keys);
    order := cs;
    forall c <- cs ensures c in caps { assert c in Elements(cs); }
    ghost var start := z.State();
    for k := 0 to |cs|
      invariant z.Shape() && z.Live(d)
      invariant z.State() == CapabilitiesLoaded(create, loads, caps, start, d.address, cs[..k])
    {
      Shorter(cs, k);
      LoadCapability(z, d, cs[k], caps[cs[k]], create, loads, caps);
    }
    Whole(cs);
  }

  method LoadDevice(z: Gateway, a: Address, create: string -> Option<Implementation>, loads: Loads)
    returns (ghost order: seq<Category>)
    requires z.Shape() && DeviceAt(z.section, a).Some?
    modifies z`section, z`log, z`device, z`rows
    ensures var d := DeviceAt(old(z.section), a).value;
            && Elements(order) == d.capability.Keys && (forall c <- order :: c in d.capability)
            && z.State() == DeviceLoaded(create, loads, d, old(z.State()), a, order)
    ensures z.Shape() && a in z.device && fresh(z.device[a]) && z.device == old(z.device)[a := z.device[a]]
  {
    var section := DeviceAt(z.section, a).value;
    var d := z.CreateSpecificDevice(a.ieee, a.sub);
    if section.uniqueId.Some? { z.SetDeviceUniqueId(d, section.uniqueId.value); }
    order := LoadCapabilities(z, d, section.capability, create, loads);
  }

  /** The devices stored below a node. */
  function StoredDevices(t: Store, n: Ieee): set<Address> {
    if n in t then set s | s in t[n] :: Address(n, s) else {}
  }

  lemma StoredAt(t: Store, n: Ieee, a: Address)
    ensures a in StoredDevices(t, n) <==> a.ieee == n && DeviceAt(t, a).Some?
  {
  }

  /** All devices in the table were made since. */
  twostate predicate AllNew(z: Gateway)
    reads z
  {
    forall a <- z.device :: fresh(z.device[a])
  }

  method LoadNode(z: Gateway, n: Ieee, create: string -> Option<Implementation>, loads: Loads, ghost t: Store,
                  ghost done: set<Address>)
    requires z.Shape() && Faithful(z.mapping, create) && Sane(z.mapping, t) && n in z.node
    requires Loaded(z.mapping, t, loads, done, z.State()) && done !! StoredDevices(t, n)
    modifies z`section, z`log, z`device, z`rows
    ensures z.Shape() && Loaded(z.mapping, t, loads, done + StoredDevices(t, n), z.State())
    ensures forall a <- z.device :: fresh(z.device[a]) || (a in old(z.device) && z.device[a] == old(z.device[a]))
  {
    var devices := InSomeOrder(StoredDevices(z.section, n));
    assert Elements(devices[..0]) == {};
    assert done + {} == done;
    for k := 0 to |devices|
      invariant z.Shape() && Loaded(z.mapping, t, loads, done + Elements(devices[..k]), z.State())
      invariant forall a <- z.device :: fresh(z.device[a]) || (a in old(z.device) && z.device[a] == old(z.device[a]))
    {
      LoadNext(z, n, devices, k, create, loads, t, done);
    }
    Whole(devices);
  }

  method LoadNext(z: Gateway, n: Ieee, devices: seq<Address>, k: nat, create: string -> Option<Implementation>,
                  loads: Loads, ghost t: Store, ghost done: set<Address>)
    requires z.Shape() && Faithful(z.mapping, create) && Sane(z.mapping, t) && n in z.node
    requires k < |devices| && Distinct(devices) && Elements(devices) == StoredDevices(t, n)
             && done !! StoredDevices(t, n)
    requires Loaded(z.mapping, t, loads, done + Elements(devices[..k]), z.State())
    modifies z`section, z`log, z`device, z`rows
    ensures z.Shape() && Loaded(z.mapping, t, loads, done + Elements(devices[..k + 1]), z.State())
    ensures forall a <- z.device :: fresh(z.device[a]) || (a in old(z.device) && z.device[a] == old(z.device[a]))
  {
    var a := devices[k];
    Prefix(devices, k);
    StoredAt(t, n, a);
    assert (done + Elements(devices[..k])) + {a} == done + Elements(devices[..k + 1]);
    ghost var s := z.State();
    ghost var order := LoadDevice(z, a, create, loads);
    DeviceLoadedOk(z.mapping, create, loads, t, done + Elements(devices[..k]), s, a, order);
  }

  /** The nodes loaded so far, with all their devices. */
  ghost predicate NodesLoaded(m: Mapping, t: Store, loads: Loads, nodes: set<Ieee>, s: State) {
    s.nodes == nodes && Loaded(m, t, loads, DevicesBelow(t, nodes), s)
  }

  ghost function DevicesBelow(t: Store, nodes: set<Ieee>): set<Address> {
    set n, a | n in nodes && a in StoredDevices(t, n) :: a
  }

  lemma NodeStarted(m: Mapping, t: Store, loads: Loads, done: set<Address>, s: State, n: Ieee)
    requires Loaded(m, t, loads, done, s) && n in t
    ensures Loaded(m, t, loads, done, NodeAdded(s, n))
  {
  }

  lemma MoreBelow(t: Store, nodes: set<Ieee>, n: Ieee)
    ensures DevicesBelow(t, nodes + {n}) == DevicesBelow(t, nodes) + StoredDevices(t, n)
    ensures n !in nodes ==> DevicesBelow(t, nodes) !! StoredDevices(t, n)
  {
  }

  lemma AllBelow(m: Mapping, t: Store, loads: Loads, s: State)
    requires NodesLoaded(m, t, loads, t.Keys, s)
    ensures Complete(m, t, loads, s)
  {
    forall a ensures a in s.rows <==> DeviceAt(t, a).Some? {
      StoredAt(t, a.ieee, a);
      assert a in DevicesBelow(t, t.Keys) <==> a in StoredDevices(t, a.ieee);
    }
  }

  method LoadNextNode(z: Gateway, n: Ieee, create: string -> Option<Implementation>, loads: Loads, ghost t: Store,
                      ghost nodes: set<Ieee>)
    requires z.Shape() && Faithful(z.mapping, create) && Sane(z.mapping, t) && n in t && n !in nodes
    requires NodesLoaded(z.mapping, t, loads, nodes, z.State())
    modifies z`node, z`section, z`log, z`device, z`rows
    ensures z.Shape() && NodesLoaded(z.mapping, t, loads, nodes + {n}, z.State())
    ensures forall a <- z.device :: fresh(z.device[a]) || (a in old(z.device) && z.device[a] == old(z.device[a]))
  {
    NodeStarted(z.mapping, t, loads, DevicesBelow(t, nodes), z.State(), n);
    MoreBelow(t, nodes, n);
    var created := z.CreateNode(n);
    LoadNode(z, n, create, loads, t, DevicesBelow(t, nodes));
  }

  /** From an empty table and a tree that a run left: afterwards the table is valid and is what the tree says. */
  method ProviderLoad(z: Gateway, create: string -> Option<Implementation>, loads: Loads)
    requires z.Shape() && z.State() == State({}, map[], z.section, [])
    requires WellMapped(z.mapping) && Faithful(z.mapping, create) && Sane(z.mapping, z.section)
    modifies z`node, z`section, z`log, z`device, z`rows
    ensures z.Valid() && AllNew(z)
    ensures z.section == old(z.section) && Complete(z.mapping, z.section, loads, z.State())
  {
    ghost var t, s := z.section, z.State();
    var nodes := InSomeOrder(z.section.Keys);
    assert Elements(nodes[..0]) == {} && DevicesBelow(t, {}) == {};
    for k := 0 to |nodes|
      invariant z.Shape() && NodesLoaded(z.mapping, t, loads, Elements(nodes[..k]), z.State()) && AllNew(z)
    {
      Prefix(nodes, k);
      LoadNextNode(z, nodes[k], create, loads, t, Elements(nodes[..k]));
    }
    Whole(nodes);
    AllBelow(z.mapping, t, loads, z.State());
    CompleteInv(z.mapping, t, loads, z.State());
  }
}
