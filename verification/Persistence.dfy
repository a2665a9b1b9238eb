/** The persisted tree of persistence.go: Node/<address>/Device/<sub-identifier>/Capability/<category>. */
module Persistence {
  import opened Wrappers
  import opened Keys
  import opened Factory
  import opened EventLog

  datatype CapabilitySection = CapabilitySection(implementation: Option<string>)
  datatype DeviceSection = DeviceSection(uniqueId: Option<int>, capability: map<Category, CapabilitySection>)

  /** The sections below "Node", by the address and sub-identifier their keys decode to (see `KeyEncoding`). */
  type Store = map<Ieee, map<Byte, DeviceSection>>

  const EMPTY_DEVICE := DeviceSection(None, map[])

  function DeviceAt(s: Store, a: Address): Option<DeviceSection> {
    if a.ieee in s && a.sub in s[a.ieee] then Some(s[a.ieee][a.sub]) else None
  }

  /** The device's capability sections, none for a device that is not in the tree. */
  function SectionsIn(t: Store, a: Address): map<Category, CapabilitySection> {
    if DeviceAt(t, a).Some? then DeviceAt(t, a).value.capability else map[]
  }

  /** `sectionForNode`: the node's section, created when missing. */
  function SectionForNode(s: Store, n: Ieee): Store {
    if n in s then s else s[n := map[]]
  }

  /** Writing a device's section, below a section for its node. */
  function PutDevice(s: Store, a: Address, d: DeviceSection): Store {
    var t := SectionForNode(s, a.ieee);
    var devices: map<Byte, DeviceSection> := t[a.ieee];
    t[a.ieee := devices[a.sub := d]]
  }

  /** `sectionForDevice`: the device's section, created when missing. */
  function SectionForDevice(s: Store, a: Address): (t: Store)
    ensures DeviceAt(t, a) == if DeviceAt(s, a).Some? then DeviceAt(s, a) else Some(EMPTY_DEVICE)
  {
    if DeviceAt(s, a).Some? then s else PutDevice(s, a, EMPTY_DEVICE)
  }

  /** `sectionRemoveDevice`. */
  function RemoveDevice(s: Store, a: Address): Store {
    var t := SectionForNode(s, a.ieee);
    var devices: map<Byte, DeviceSection> := t[a.ieee];
    t[a.ieee := devices - {a.sub}]
  }

  /** `sectionRemoveNode`. */
  function RemoveNode(s: Store, n: Ieee): Store {
    s - {n}
  }

  /** `Section("Capability", name)`: the capability's section, created when missing. */
  function WithCapability(s: Store, a: Address, c: Category): Store
    requires DeviceAt(s, a).Some?
  {
    var d := DeviceAt(s, a).value;
    if c in d.capability then s else PutDevice(s, a, d.(capability := d.capability[c := CapabilitySection(None)]))
  }

  /** Setting "Implementation" in the capability's section. */
  function WithImplementation(s: Store, a: Address, c: Category, name: string): Store
    requires DeviceAt(s, a).Some?
  {
    var d := DeviceAt(s, a).value;
    PutDevice(s, a, d.(capability := d.capability[c := CapabilitySection(Some(name))]))
  }

  /** `SectionDelete` of the capability's section. */
  function WithoutCapability(s: Store, a: Address, c: Category): Store
    requires DeviceAt(s, a).Some?
  {
    var d := DeviceAt(s, a).value;
    PutDevice(s, a, d.(capability := d.capability - {c}))
  }
}
