/** The gateway on values: the device table, its persisted tree and its event log, and what every step keeps. */
module GatewayState {
  import opened Wrappers
  import opened Keys
  import opened Factory
  import opened EventLog
  import opened Persistence
  import opened CapabilityPlan
  import opened Sequences

  /** One device: its unique id, whether that was set, the capabilities it holds and the statuses last reported. */
  datatype Row = Row(id: int, isSet: bool, held: Held, results: map<Category, bool>)

  type Rows = map<Address, Row>

  datatype State = State(nodes: set<Ieee>, rows: Rows, section: Store, log: seq<Event>)

  const NEW_ROW := Row(0, false, map[], map[])

  /** What a user is shown: the held capabilities and the two built into every device. */
  function Shown(r: Row): set<Category> {
    r.held.Keys + {EnumerateDevice, DeviceRemoval}
  }

  function ShownTable(rows: Rows): View {
    map a <- rows :: Shown(rows[a])
  }

  // ---- The invariants ----

  /**
   * Devices sit on known nodes, hold capabilities under their own category, and set ids are endpoint numbers
   * unique on a node.
   */
  ghost predicate Named(m: Mapping, nodes: set<Ieee>, rows: Rows) {
    && (forall a <- rows :: a.ieee in nodes)
    && (forall a <- rows :: WellHeld(m, rows[a].held))
    && (forall a <- rows :: 0 <= rows[a].id < 256 && (!rows[a].isSet ==> rows[a].id == 0))
    && (forall a <- rows, b <- rows |
          a.ieee == b.ieee && rows[a].isSet && rows[b].isSet && rows[a].id == rows[b].id :: a == b)
  }

  /** The event log replays to the table, and every event made sense when it was sent. */
  ghost predicate Logged(rows: Rows, log: seq<Event>) {
    Coherent(log) && Replay(log) == ShownTable(rows)
  }

  /** The persisted tree has the same nodes, devices and ids, and every held capability with its implementation. */
  ghost predicate Mirrored(m: Mapping, nodes: set<Ieee>, rows: Rows, section: Store) {
    && section.Keys == nodes
    && (forall a :: a in rows <==> DeviceAt(section, a).Some?)
    && (forall a <- rows :: SectionMatches(m, rows[a], DeviceAt(section, a).value))
  }

  ghost predicate SectionMatches(m: Mapping, r: Row, s: DeviceSection) {
    && s.uniqueId == (if r.isSet then Some(r.id) else None)
    && (forall c <- r.held :: c in s.capability && s.capability[c].implementation == Some(r.held[c].name))
    && Filed(m, s)
  }

  /** A capability's section names an implementation of that capability, if it names one. */
  ghost predicate Filed(m: Mapping, s: DeviceSection) {
    forall c <- s.capability | s.capability[c].implementation.Some? ::
      s.capability[c].implementation.value in m && m[s.capability[c].implementation.value] == c
  }

  ghost predicate Inv(m: Mapping, s: State) {
    Named(m, s.nodes, s.rows) && Logged(s.rows, s.log) && Mirrored(m, s.nodes, s.rows, s.section)
  }

  // ---- The steps ----

  function NodeAdded(s: State, n: Ieee): State {
    s.(nodes := s.nodes + {n}, section := SectionForNode(s.section, n))
  }

  function NodeRemoved(s: State, n: Ieee): State {
    s.(nodes := s.nodes - {n}, rows := map a <- s.rows | a.ieee != n :: s.rows[a], section := RemoveNode(s.section, n))
  }

  function DeviceCreated(s: State, a: Address): State {
    s.(rows := s.rows[a := NEW_ROW],
       section := SectionForDevice(s.section, a),
       log := s.log + [DeviceAdded(a)] + [CapabilityAdded(a, EnumerateDevice)] + [CapabilityAdded(a, DeviceRemoval)])
  }

  function IdSet(s: State, a: Address, id: int): State
    requires a in s.rows
  {
    var t := SectionForDevice(s.section, a);
    s.(rows := s.rows[a := s.rows[a].(id := id, isSet := true)],
       section := PutDevice(t, a, DeviceAt(t, a).value.(uniqueId := Some(id))))
  }

  function ImplementationStored(s: State, a: Address, c: Category, name: string): State {
    s.(section := WithImplementation(SectionForDevice(s.section, a), a, c, name))
  }

  function CapabilityAttached(s: State, a: Address, i: Implementation): State
    requires a in s.rows
  {
    s.(rows := s.rows[a := s.rows[a].(held := s.rows[a].held[i.category := i])],
       section := WithCapability(SectionForDevice(s.section, a), a, i.category),
       log := s.log + [CapabilityAdded(a, i.category)])
  }

  function CapabilityDetached(s: State, a: Address, c: Category): State
    requires a in s.rows
  {
    if c !in s.rows[a].held then s else
      s.(rows := s.rows[a := s.rows[a].(held := s.rows[a].held - {c})],
         section := WithoutCapability(SectionForDevice(s.section, a), a, c),
         log := s.log + [CapabilityRemoved(a, c)])
  }

  /** The statuses of an enumeration, kept for `EnumerateDevice.Status`. */
  function Reported(s: State, a: Address, results: map<Category, bool>): State
    requires a in s.rows
  {
    s.(rows := s.rows[a := s.rows[a].(results := results)])
  }

  /** The end of a device's removal, once its capabilities are detached. */
  function BareDeviceRemoved(s: State, a: Address): State {
    s.(rows := s.rows - {a},
       section := RemoveDevice(s.section, a),
       log := s.log + [CapabilityRemoved(a, EnumerateDevice)] + [CapabilityRemoved(a, DeviceRemoval)]
              + [DeviceRemoved(a)])
  }

  // ---- Each step keeps the invariants ----

  lemma NodeAddedInv(m: Mapping, s: State, n: Ieee)
    requires Inv(m, s)
    ensures Inv(m, NodeAdded(s, n))
  {
    forall a ensures DeviceAt(NodeAdded(s, n).section, a) == DeviceAt(s.section, a) { }
  }

  /** Forgetting a node keeps the invariants when no device is left on it. */
  lemma NodeRemovedInv(m: Mapping, s: State, n: Ieee)
    requires Inv(m, s) && forall a <- s.rows :: a.ieee != n
    ensures NodeRemoved(s, n).rows == s.rows
    ensures Inv(m, NodeRemoved(s, n))
  {
    assert NodeRemoved(s, n).rows == s.rows;
  }

  lemma GreetingEffect(v: View, a: Address)
    requires a !in v
    ensures var v1 := Apply(v, DeviceAdded(a));
            var v2 := Apply(v1, CapabilityAdded(a, EnumerateDevice));
            && Sensible(v, DeviceAdded(a)) && Sensible(v1, CapabilityAdded(a, EnumerateDevice))
            && Sensible(v2, CapabilityAdded(a, DeviceRemoval))
            && Apply(v2, CapabilityAdded(a, DeviceRemoval)) == v[a := {EnumerateDevice, DeviceRemoval}]
  {
    assert {} + {EnumerateDevice} + {DeviceRemoval} == {EnumerateDevice, DeviceRemoval};
  }

  lemma GreetingLogged(log: seq<Event>, a: Address)
    requires Coherent(log) && a !in Replay(log)
    ensures var l := log + [DeviceAdded(a)] + [CapabilityAdded(a, EnumerateDevice)]
                     + [CapabilityAdded(a, DeviceRemoval)];
            Coherent(l) && Replay(l) == Replay(log)[a := {EnumerateDevice, DeviceRemoval}]
  {
    var l1 := log + [DeviceAdded(a)];
    var l2 := l1 + [CapabilityAdded(a, EnumerateDevice)];
    Snoc(log, DeviceAdded(a));
    Snoc(l1, CapabilityAdded(a, EnumerateDevice));
    Snoc(l2, CapabilityAdded(a, DeviceRemoval));
    GreetingEffect(Replay(log), a);
  }

  lemma DeviceCreatedLogged(s: State, a: Address)
    requires Logged(s.rows, s.log) && a !in s.rows
    ensures Logged(DeviceCreated(s, a).rows, DeviceCreated(s, a).log)
  {
    GreetingLogged(s.log, a);
    assert Shown(NEW_ROW) == {EnumerateDevice, DeviceRemoval};
    assert ShownTable(s.rows)[a := Shown(NEW_ROW)] == ShownTable(s.rows[a := NEW_ROW]);
  }

  lemma DeviceCreatedMirrored(m: Mapping, s: State, a: Address)
    requires Mirrored(m, s.nodes, s.rows, s.section) && a !in s.rows && a.ieee in s.nodes
    ensures Mirrored(m, s.nodes, DeviceCreated(s, a).rows, DeviceCreated(s, a).section)
  {
    var t := DeviceCreated(s, a).section;
    forall b ensures DeviceAt(t, b) == if b == a then Some(EMPTY_DEVICE) else DeviceAt(s.section, b) { }
  }

  /** Creating a device at a free address of a known node. */
  lemma DeviceCreatedInv(m: Mapping, s: State, a: Address)
    requires Inv(m, s) && a !in s.rows && a.ieee in s.nodes
    ensures Inv(m, DeviceCreated(s, a))
  {
    DeviceCreatedLogged(s, a);
    DeviceCreatedMirrored(m, s, a);
    DeviceCreatedNamed(m, s.nodes, s.rows, a);
  }

  lemma DeviceCreatedNamed(m: Mapping, nodes: set<Ieee>, rows: Rows, a: Address)
    requires Named(m, nodes, rows) && a !in rows && a.ieee in nodes
    ensures Named(m, nodes, rows[a := NEW_ROW])
  {
  }

  lemma PutDeviceAt(s: Store, a: Address, d: DeviceSection)
    requires DeviceAt(s, a).Some?
    ensures PutDevice(s, a, d).Keys == s.Keys
    ensures forall b :: DeviceAt(PutDevice(s, a, d), b) == if b == a then Some(d) else DeviceAt(s, b)
  {
  }

  /** Rewriting one device's row and section together. */
  lemma MirroredUpdate(m: Mapping, nodes: set<Ieee>, rows: Rows, section: Store, a: Address, r: Row, d: DeviceSection)
    requires Mirrored(m, nodes, rows, section) && a in rows && SectionMatches(m, r, d)
    ensures Mirrored(m, nodes, rows[a := r], PutDevice(section, a, d))
  {
    PutDeviceAt(section, a, d);
  }

  /** A capability event and the row it leads to. */
  lemma LoggedUpdate(rows: Rows, log: seq<Event>, e: Event, a: Address, r: Row)
    requires Logged(rows, log) && a in rows && !e.DeviceAdded? && !e.DeviceRemoved? && e.device == a
    requires e.CapabilityAdded? ==> Shown(r) == Shown(rows[a]) + {e.capability}
    requires e.CapabilityRemoved? ==> e.capability in Shown(rows[a]) && Shown(r) == Shown(rows[a]) - {e.capability}
    ensures Logged(rows[a := r], log + [e])
  {
    Snoc(log, e);
    assert Replay(log)[a := Shown(r)] == ShownTable(rows[a := r]);
  }

  lemma LoggedSameShown(rows: Rows, log: seq<Event>, a: Address, r: Row)
    requires Logged(rows, log) && a in rows && Shown(r) == Shown(rows[a])
    ensures Logged(rows[a := r], log)
  {
    assert ShownTable(rows[a := r]) == ShownTable(rows);
  }

  /** The id is an endpoint number no other device of the node carries. */
  ghost predicate IdFree(rows: Rows, a: Address, id: int) {
    0 <= id < 256 && forall b <- rows | b.ieee == a.ieee && b != a && rows[b].isSet :: rows[b].id != id
  }

  lemma IdSetInv(m: Mapping, s: State, a: Address, id: int)
    requires Inv(m, s) && a in s.rows && IdFree(s.rows, a, id)
    ensures Inv(m, IdSet(s, a, id))
  {
    var r := s.rows[a].(id := id, isSet := true);
    MirroredUpdate(m, s.nodes, s.rows, s.section, a, r, DeviceAt(s.section, a).value.(uniqueId := Some(id)));
    LoggedSameShown(s.rows, s.log, a, r);
    assert Named(m, s.nodes, s.rows[a := r]);
  }

  lemma ImplementationStoredInv(m: Mapping, s: State, a: Address, c: Category, name: string)
    requires Inv(m, s) && a in s.rows
    requires name in m && m[name] == c
    requires c in s.rows[a].held ==> s.rows[a].held[c].name == name
    ensures Inv(m, ImplementationStored(s, a, c, name))
    ensures Stored(ImplementationStored(s, a, c, name), a, c, name)
  {
    var d := DeviceAt(s.section, a).value;
    var d' := d.(capability := d.capability[c := CapabilitySection(Some(name))]);
    PutDeviceAt(s.section, a, d');
    MirroredUpdate(m, s.nodes, s.rows, s.section, a, s.rows[a], d');
    assert s.rows[a := s.rows[a]] == s.rows;
  }

  /** The capability's section names the implementation. */
  ghost predicate Stored(s: State, a: Address, c: Category, name: string) {
    && DeviceAt(s.section, a).Some?
    && c in DeviceAt(s.section, a).value.capability
    && DeviceAt(s.section, a).value.capability[c].implementation == Some(name)
  }

  lemma NamedUpdate(m: Mapping, nodes: set<Ieee>, rows: Rows, a: Address, held: Held)
    requires Named(m, nodes, rows) && a in rows && WellHeld(m, held)
    ensures Named(m, nodes, rows[a := rows[a].(held := held)])
  {
  }

  /** Attaching an implementation whose section is already written. */
  lemma CapabilityAttachedInv(m: Mapping, s: State, a: Address, i: Implementation)
    requires Inv(m, s) && WellMapped(m) && a in s.rows
    requires i.name in m && m[i.name] == i.category && Stored(s, a, i.category, i.name)
    ensures Inv(m, CapabilityAttached(s, a, i))
    ensures CapabilityAttached(s, a, i).section == s.section
  {
    var r := s.rows[a].(held := s.rows[a].held[i.category := i]);
    NamedUpdate(m, s.nodes, s.rows, a, r.held);
    AttachedLogged(s, a, i);
    AttachedMirrored(m, s, a, i);
  }

  lemma AttachedLogged(s: State, a: Address, i: Implementation)
    requires Logged(s.rows, s.log) && a in s.rows
    ensures Logged(CapabilityAttached(s, a, i).rows, CapabilityAttached(s, a, i).log)
  {
    var r := s.rows[a].(held := s.rows[a].held[i.category := i]);
    assert Shown(r) == Shown(s.rows[a]) + {i.category};
    LoggedUpdate(s.rows, s.log, CapabilityAdded(a, i.category), a, r);
  }

  lemma AttachedMirrored(m: Mapping, s: State, a: Address, i: Implementation)
    requires Mirrored(m, s.nodes, s.rows, s.section) && a in s.rows && Stored(s, a, i.category, i.name)
    ensures Mirrored(m, s.nodes, CapabilityAttached(s, a, i).rows, s.section)
  {
    var r := s.rows[a].(held := s.rows[a].held[i.category := i]);
    assert SectionMatches(m, r, DeviceAt(s.section, a).value);
  }

  /** Detaching a held capability deletes its section too. */
  lemma CapabilityDetachedInv(m: Mapping, s: State, a: Address, c: Category)
    requires Inv(m, s) && a in s.rows
    ensures Inv(m, CapabilityDetached(s, a, c))
  {
    if c in s.rows[a].held {
      var r := s.rows[a].(held := s.rows[a].held - {c});
      NamedUpdate(m, s.nodes, s.rows, a, r.held);
      assert Shown(r) == Shown(s.rows[a]) - {c};
      LoggedUpdate(s.rows, s.log, CapabilityRemoved(a, c), a, r);
      var d := DeviceAt(s.section, a).value;
      MirroredUpdate(m, s.nodes, s.rows, s.section, a, r, d.(capability := d.capability - {c}));
    }
  }

  lemma ReportedInv(m: Mapping, s: State, a: Address, results: map<Category, bool>)
    requires Inv(m, s) && a in s.rows
    ensures Inv(m, Reported(s, a, results))
  {
    var r := s.rows[a].(results := results);
    LoggedSameShown(s.rows, s.log, a, r);
    assert SectionMatches(m, r, DeviceAt(s.section, a).value);
  }

  lemma FarewellEffect(v: View, a: Address)
    requires a in v && v[a] == {EnumerateDevice, DeviceRemoval}
    ensures var v1 := Apply(v, CapabilityRemoved(a, EnumerateDevice));
            var v2 := Apply(v1, CapabilityRemoved(a, DeviceRemoval));
            && Sensible(v, CapabilityRemoved(a, EnumerateDevice)) && Sensible(v1, CapabilityRemoved(a, DeviceRemoval))
            && Sensible(v2, DeviceRemoved(a)) && Apply(v2, DeviceRemoved(a)) == v - {a}
  {
    assert v[a] - {EnumerateDevice} == {DeviceRemoval};
  }

  lemma FarewellLogged(log: seq<Event>, a: Address)
    requires Coherent(log) && a in Replay(log) && Replay(log)[a] == {EnumerateDevice, DeviceRemoval}
    ensures var l := log + [CapabilityRemoved(a, EnumerateDevice)] + [CapabilityRemoved(a, DeviceRemoval)]
                     + [DeviceRemoved(a)];
            Coherent(l) && Replay(l) == Replay(log) - {a}
  {
    var l1 := log + [CapabilityRemoved(a, EnumerateDevice)];
    var l2 := l1 + [CapabilityRemoved(a, DeviceRemoval)];
    Snoc(log, CapabilityRemoved(a, EnumerateDevice));
    Snoc(l1, CapabilityRemoved(a, DeviceRemoval));
    Snoc(l2, DeviceRemoved(a));
    FarewellEffect(Replay(log), a);
  }

  lemma BareDeviceRemovedLogged(s: State, a: Address)
    requires Logged(s.rows, s.log) && a in s.rows && s.rows[a].held == map[]
    ensures Logged(BareDeviceRemoved(s, a).rows, BareDeviceRemoved(s, a).log)
  {
    assert Shown(s.rows[a]) == {EnumerateDevice, DeviceRemoval};
    FarewellLogged(s.log, a);
    assert ShownTable(s.rows) - {a} == ShownTable(s.rows - {a});
  }

  lemma BareDeviceRemovedMirrored(m: Mapping, s: State, a: Address)
    requires Mirrored(m, s.nodes, s.rows, s.section) && a in s.rows
    ensures Mirrored(m, s.nodes, s.rows - {a}, RemoveDevice(s.section, a))
  {
    var t := RemoveDevice(s.section, a);
    forall b ensures DeviceAt(t, b) == if b == a then None else DeviceAt(s.section, b) { }
  }

  /** Removing a device that holds no capability any more. */
  lemma BareDeviceRemovedInv(m: Mapping, s: State, a: Address)
    requires Inv(m, s) && a in s.rows && s.rows[a].held == map[]
    ensures Inv(m, BareDeviceRemoved(s, a))
  {
    BareDeviceRemovedLogged(s, a);
    BareDeviceRemovedMirrored(m, s, a);
  }

  // ---- What the steps do to the tree ----

  /** The capability sections of a device. */
  function Sections(s: State, a: Address): map<Category, CapabilitySection> {
    SectionsIn(s.section, a)
  }

  /** Only this device's capability sections differ: all else in the tree is as before. */
  ghost predicate OnlySections(a: Address, before: Store, after: Store) {
    && after.Keys == before.Keys
    && (forall b: Address | b != a :: DeviceAt(after, b) == DeviceAt(before, b))
    && DeviceAt(before, a).Some? && DeviceAt(after, a).Some?
    && DeviceAt(after, a).value.uniqueId == DeviceAt(before, a).value.uniqueId
  }

  /** Detaching a held capability deletes its section, and nothing else in the tree. */
  lemma DetachedSections(s: State, a: Address, c: Category)
    requires a in s.rows && DeviceAt(s.section, a).Some?
    ensures var r := CapabilityDetached(s, a, c);
            && OnlySections(a, s.section, r.section)
            && Sections(r, a) == if c in s.rows[a].held then map k <- Sections(s, a) | k != c :: Sections(s, a)[k]
                                 else Sections(s, a)
  {
  }

  /** Naming an implementation writes just that into its capability's section. */
  lemma StoredSections(s: State, a: Address, c: Category, name: string)
    requires DeviceAt(s.section, a).Some?
    ensures var r := ImplementationStored(s, a, c, name);
            && OnlySections(a, s.section, r.section)
            && Sections(r, a) == Sections(s, a)[c := CapabilitySection(Some(name))]
  {
  }

  /** Attaching a capability whose section is there leaves the tree alone. */
  lemma AttachedSections(s: State, a: Address, i: Implementation)
    requires a in s.rows && DeviceAt(s.section, a).Some? && i.category in Sections(s, a)
    ensures CapabilityAttached(s, a, i).section == s.section
  {
  }

  // ---- Removing a device ----

  /** Detaching the listed capabilities one after another. */
  function CapabilitiesDetached(s: State, a: Address, cs: seq<Category>): (r: State)
    requires a in s.rows
    ensures a in r.rows && r.rows.Keys == s.rows.Keys
    decreases |cs|
  {
    if cs == [] then s else
      CapabilityDetached(CapabilitiesDetached(s, a, cs[..|cs| - 1]), a, cs[|cs| - 1])
  }

  function Detachments(a: Address, cs: seq<Category>): seq<Event> {
    seq(|cs|, i requires 0 <= i < |cs| => CapabilityRemoved(a, cs[i]))
  }

  function Farewell(a: Address): seq<Event> {
    [CapabilityRemoved(a, EnumerateDevice), CapabilityRemoved(a, DeviceRemoval), DeviceRemoved(a)]
  }

  lemma {:induction false} CapabilitiesDetachedInv(m: Mapping, s: State, a: Address, cs: seq<Category>)
    requires Inv(m, s) && a in s.rows
    ensures Inv(m, CapabilitiesDetached(s, a, cs))
    decreases |cs|
  {
    if cs != [] {
      CapabilitiesDetachedInv(m, s, a, cs[..|cs| - 1]);
      CapabilityDetachedInv(m, CapabilitiesDetached(s, a, cs[..|cs| - 1]), a, cs[|cs| - 1]);
    }
  }

  lemma RemovalForgets(s: State, a: Address, c: Category)
    requires a in s.rows && DeviceAt(s.section, a).Some?
    ensures RemoveDevice(CapabilityDetached(s, a, c).section, a) == RemoveDevice(s.section, a)
  {
    if c in s.rows[a].held {
      var d := DeviceAt(s.section, a).value;
      var t := PutDevice(s.section, a, d.(capability := d.capability - {c}));
      assert t[a.ieee] - {a.sub} == s.section[a.ieee] - {a.sub};
    }
  }

  /** What detaching held capabilities changes: just this device's capabilities, with one event each. */
  lemma {:induction false} CapabilitiesDetachedEffect(s: State, a: Address, cs: seq<Category>)
    requires a in s.rows && Distinct(cs) && Elements(cs) <= s.rows[a].held.Keys
    ensures var t := CapabilitiesDetached(s, a, cs);
            && t.rows == s.rows[a := s.rows[a].(held := s.rows[a].held - Elements(cs))]
            && t.log == s.log + Detachments(a, cs) && t.nodes == s.nodes
    decreases |cs|
  {
    if cs == [] {
      assert s.rows[a].held - Elements(cs) == s.rows[a].held;
    } else {
      var init, c := cs[..|cs| - 1], cs[|cs| - 1];
      Last(cs);
      CapabilitiesDetachedEffect(s, a, init);
      DetachedOne(s, CapabilitiesDetached(s, a, init), a, Elements(init), c);
      assert Detachments(a, cs) == Detachments(a, init) + [CapabilityRemoved(a, c)];
    }
  }

  lemma DetachedOne(s: State, t: State, a: Address, gone: set<Category>, c: Category)
    requires a in s.rows && c in s.rows[a].held && c !in gone
    requires t.rows == s.rows[a := s.rows[a].(held := s.rows[a].held - gone)]
    ensures var r := CapabilityDetached(t, a, c);
            && r.rows == s.rows[a := s.rows[a].(held := s.rows[a].held - (gone + {c}))]
            && r.log == t.log + [CapabilityRemoved(a, c)] && r.nodes == t.nodes
  {
    assert s.rows[a].held - gone - {c} == s.rows[a].held - (gone + {c});
  }

  lemma {:induction false} CapabilitiesDetachedSection(s: State, a: Address, cs: seq<Category>)
    requires a in s.rows && DeviceAt(s.section, a).Some?
    ensures var t := CapabilitiesDetached(s, a, cs);
            DeviceAt(t.section, a).Some? && RemoveDevice(t.section, a) == RemoveDevice(s.section, a)
    decreases |cs|
  {
    if cs != [] {
      var t := CapabilitiesDetached(s, a, cs[..|cs| - 1]);
      CapabilitiesDetachedSection(s, a, cs[..|cs| - 1]);
      RemovalForgets(t, a, cs[|cs| - 1]);
    }
  }

  /** The whole removal, its capabilities detached in the order `cs`. */
  function DeviceRemovedState(s: State, a: Address, cs: seq<Category>): State
    requires a in s.rows
  {
    BareDeviceRemoved(CapabilitiesDetached(s, a, cs), a)
  }

  /** Removing a device touches nothing else, whatever the order its capabilities go in. */
  lemma DeviceRemovedEffect(s: State, a: Address, cs: seq<Category>)
    requires a in s.rows && DeviceAt(s.section, a).Some? && Distinct(cs) && Elements(cs) == s.rows[a].held.Keys
    ensures var t := DeviceRemovedState(s, a, cs);
            && t.rows == s.rows - {a} && t.nodes == s.nodes && t.section == RemoveDevice(s.section, a)
            && t.log == s.log + Detachments(a, cs) + Farewell(a)
  {
    CapabilitiesDetachedEffect(s, a, cs);
    CapabilitiesDetachedSection(s, a, cs);
    assert s.rows[a := s.rows[a].(held := s.rows[a].held - Elements(cs))] - {a} == s.rows - {a};
  }

  /** Removing a device keeps the invariants. */
  lemma DeviceRemovedInv(m: Mapping, s: State, a: Address, cs: seq<Category>)
    requires Inv(m, s) && a in s.rows && Distinct(cs) && Elements(cs) == s.rows[a].held.Keys
    ensures Inv(m, DeviceRemovedState(s, a, cs))
  {
    var t := CapabilitiesDetached(s, a, cs);
    CapabilitiesDetachedEffect(s, a, cs);
    CapabilitiesDetachedInv(m, s, a, cs);
    assert t.rows[a].held == map[];
    BareDeviceRemovedInv(m, t, a);
  }
}
