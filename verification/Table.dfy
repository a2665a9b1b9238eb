/** The gateway's device table of table.go, mutated in place: nodes, devices, their events and their sections. */
module Table {
  import opened Wrappers
  import opened Keys
  import opened Factory
  import opened EventLog
  import opened Persistence
  import opened CapabilityPlan
  import opened Roster
  import opened GatewayState
  import opened Sequences

  class Device {
    const address: Address
    var deviceId: int
    var deviceIdSet: bool
    var capabilities: Held
    /** The statuses of the last enumeration, as `EnumerateDevice.Status` reports them. */
    var results: map<Category, bool>

    constructor (address: Address)
      ensures this.address == address && Row() == NEW_ROW
    {
      this.address := address;
      deviceId, deviceIdSet := 0, false;
      capabilities, results := map[], map[];
    }

    function Row(): Row
      reads this
    {
      GatewayState.Row(deviceId, deviceIdSet, capabilities, results)
    }
  }

  class Gateway {
    /** The factory's names and categories. */
    const mapping: Mapping
    var node: set<Ieee>
    /** The device maps of all nodes in one, by node address and sub-identifier. */
    var device: map<Address, Device>
    var section: Store
    /** All events sent so far. */
    ghost var log: seq<Event>
    /** The devices as values. */
    ghost var rows: Rows

    constructor (mapping: Mapping, section: Store)
      ensures this.mapping == mapping && State() == GatewayState.State({}, map[], section, [])
      ensures Shape() && device == map[]
    {
      this.mapping, this.section := mapping, section;
      node, device, log, rows := {}, map[], [], map[];
    }

    ghost function State(): State
      reads this
    {
      GatewayState.State(node, rows, section, log)
    }

    /** Each device sits at its own address, and `rows` are the devices' values. */
    ghost predicate Shape()
      reads this, device.Values
    {
      && (forall a :: a in device <==> a in rows)
      && (forall a :: a in device ==> device[a].address == a && device[a].Row() == rows[a])
    }

    ghost predicate Valid()
      reads this, device.Values
    {
      Shape() && WellMapped(mapping) && Inv(mapping, State())
    }

    /** The device is in the table. */
    ghost predicate Live(d: Device)
      reads this
    {
      d.address in device && device[d.address] == d
    }

    /** The sub-identifiers in use on a node. */
    function SubIdentifiers(n: Ieee): set<Byte>
      reads this
    {
      set a | a in device && a.ieee == n :: a.sub
    }

    method CreateNode(addr: Ieee) returns (created: bool)
      modifies this`node, this`section
      ensures created == (addr !in old(node))
      ensures State() == if created then NodeAdded(old(State()), addr) else old(State())
      ensures unchanged(this`device)
    {
      created := addr !in node;
      if created {
        node := node + {addr};
        section := SectionForNode(section, addr);
      }
    }

    /** Any device still on the node goes without an event; callers remove the devices first. */
    method RemoveNode(addr: Ieee) returns (found: bool)
      requires Shape()
      modifies this`node, this`section, this`device, this`rows
      ensures Shape() && found == (addr in old(node))
      ensures device == if found then map a <- old(device) | a.ieee != addr :: old(device)[a] else old(device)
      ensures State() == if found then NodeRemoved(old(State()), addr) else old(State())
    {
      found := addr in node;
      if found {
        node := node - {addr};
        section := Persistence.RemoveNode(section, addr);
        rows := map a <- rows | a.ieee != addr :: rows[a];
        device := map a <- device | a.ieee != addr :: device[a];
      }
    }

    method NextDeviceSubIdentifier(n: Ieee) returns (s: Byte)
      ensures s == NextSubIdentifier(SubIdentifiers(n))
    {
      for i := 0 to 255
        invariant forall t: Byte | t < i :: t in SubIdentifiers(n)
      {
        if Address(n, i) !in device {
          AllocationUnique(SubIdentifiers(n), i);
          return i;
        }
        assert Address(n, i).sub in SubIdentifiers(n);
      }
      AllocationUnique(SubIdentifiers(n), 255);
      return 255;
    }

    method CreateSpecificDevice(n: Ieee, sub: Byte) returns (d: Device)
      requires Shape()
      modifies this`section, this`log, this`device, this`rows
      ensures fresh(d) && d.address == Address(n, sub)
      ensures device == old(device)[d.address := d]
      ensures Shape() && State() == DeviceCreated(old(State()), d.address)
      ensures log == old(log) + [DeviceAdded(d.address), CapabilityAdded(d.address, EnumerateDevice),
                                 CapabilityAdded(d.address, DeviceRemoval)]
    {
      d := new Device(Address(n, sub));
      device := device[d.address := d];
      rows := rows[d.address := NEW_ROW];
      section := SectionForDevice(section, d.address);
      log := log + [DeviceAdded(d.address)];
      log := log + [CapabilityAdded(d.address, EnumerateDevice)];
      log := log + [CapabilityAdded(d.address, DeviceRemoval)];
    }

    /** The new device takes the least free sub-identifier of its node whenever one is left. */
    method CreateNextDevice(n: Ieee) returns (d: Device)
      requires Shape()
      modifies this`section, this`log, this`device, this`rows
      ensures fresh(d) && d.address == Address(n, NextSubIdentifier(old(SubIdentifiers(n))))
      ensures device == old(device)[d.address := d]
      ensures Shape() && State() == DeviceCreated(old(State()), d.address)
    {
      var sub := NextDeviceSubIdentifier(n);
      d := CreateSpecificDevice(n, sub);
    }

    method Number(d: Device, id: int)
      requires Shape() && Live(d)
      modifies this`rows, d`deviceId, d`deviceIdSet
      ensures Shape() && rows == old(rows)[d.address := old(rows)[d.address].(id := id, isSet := true)]
      ensures d.deviceId == id && d.deviceIdSet
    {
      d.deviceId, d.deviceIdSet := id, true;
      rows := rows[d.address := rows[d.address].(id := id, isSet := true)];
    }

    method SetDeviceUniqueId(d: Device, id: int)
      requires Shape() && Live(d)
      modifies this`section, this`rows, d`deviceId, d`deviceIdSet
      ensures Shape() && State() == IdSet(old(State()), d.address, id)
      ensures d.deviceId == id && d.deviceIdSet && log == old(log)
      ensures DeviceAt(section, d.address).Some? && DeviceAt(section, d.address).value.uniqueId == Some(id)
    {
      Number(d, id);
      section := SectionForDevice(section, d.address);
      section := PutDevice(section, d.address, DeviceAt(section, d.address).value.(uniqueId := Some(id)));
    }

    /** Names the implementation in the capability's section. */
    method StoreImplementation(d: Device, c: Category, name: string)
      requires Shape() && Live(d)
      modifies this`section
      ensures Shape() && State() == ImplementationStored(old(State()), d.address, c, name)
    {
      section := WithImplementation(SectionForDevice(section, d.address), d.address, c, name);
    }

    /** Replaces the device's capability map. */
    method Hold(d: Device, held: Held)
      requires Shape() && Live(d)
      modifies this`rows, d`capabilities
      ensures Shape() && rows == old(rows)[d.address := old(rows)[d.address].(held := held)]
      ensures d.capabilities == held
    {
      d.capabilities := held;
      rows := rows[d.address := rows[d.address].(held := held)];
    }

    method AttachCapability(d: Device, c: Implementation)
      requires Shape() && Live(d)
      modifies this`section, this`log, this`rows, d`capabilities
      ensures Shape() && State() == CapabilityAttached(old(State()), d.address, c)
      ensures d.capabilities == old(d.capabilities)[c.category := c]
      ensures log == old(log) + [CapabilityAdded(d.address, c.category)]
    {
      Hold(d, d.capabilities[c.category := c]);
      section := WithCapability(SectionForDevice(section, d.address), d.address, c.category);
      log := log + [CapabilityAdded(d.address, c.category)];
    }

    method DetachCapability(d: Device, c: Category)
      requires Shape() && Live(d)
      modifies this`section, this`log, this`rows, d`capabilities
      ensures Shape() && State() == CapabilityDetached(old(State()), d.address, c)
      ensures c !in d.capabilities && (c !in old(d.capabilities) ==> State() == old(State()))
      ensures c in old(d.capabilities) ==>
                log == old(log) + [CapabilityRemoved(d.address, c)] && c !in SectionsIn(section, d.address)
    {
      if c !in d.capabilities { return; }
      log := log + [CapabilityRemoved(d.address, c)];
      section := WithoutCapability(SectionForDevice(section, d.address), d.address, c);
      Hold(d, d.capabilities - {c});
    }

    method SetResults(d: Device, results: map<Category, bool>)
      requires Shape() && Live(d)
      modifies this`rows, d`results
      ensures Shape() && State() == Reported(old(State()), d.address, results)
    {
      d.results := results;
      rows := rows[d.address := rows[d.address].(results := results)];
    }

    /** Detaches every capability, in any order, then removes the bare device. */
    method RemoveDevice(addr: Address) returns (found: bool, ghost detached: seq<Category>)
      requires Shape()
      modifies this`section, this`log, this`device, this`rows
      modifies if addr in device then {device[addr]} else {}
      ensures Shape() && found == (addr in old(device)) && device == old(device) - {addr}
      ensures found ==> Distinct(detached) && Elements(detached) == old(rows[addr].held.Keys)
      ensures State() == if found then DeviceRemovedState(old(State()), addr, detached) else old(State())
    {
      detached := [];
      found := addr in device;
      if !found { return; }
      detached := DetachAll(device[addr]);
      RemoveBareDevice(addr);
    }

    method RemoveBareDevice(addr: Address)
      requires Shape() && addr in device
      modifies this`section, this`log, this`device, this`rows
      ensures Shape() && device == old(device) - {addr}
      ensures State() == BareDeviceRemoved(old(State()), addr)
    {
      log := log + [CapabilityRemoved(addr, EnumerateDevice)];
      log := log + [CapabilityRemoved(addr, DeviceRemoval)];
      log := log + [DeviceRemoved(addr)];
      device := device - {addr};
      rows := rows - {addr};
      section := Persistence.RemoveDevice(section, addr);
    }

    method DetachAll(d: Device) returns (ghost detached: seq<Category>)
      requires Shape() && Live(d)
      modifies this`section, this`log, this`rows, d`capabilities
      ensures Shape() && State() == CapabilitiesDetached(old(State()), d.address, detached)
      ensures Distinct(detached) && Elements(detached) == old(rows[d.address].held.Keys)
    {
      var cs := InSomeOrder(d.capabilities.Keys);
      detached := cs;
      DetachEach(d, cs);
    }

    method DetachEach(d: Device, cs: seq<Category>)
      requires Shape() && Live(d)
      modifies this`section, this`log, this`rows, d`capabilities
      ensures Shape() && State() == CapabilitiesDetached(old(State()), d.address, cs)
    {
      for i := 0 to |cs|
        invariant Shape() && Live(d) && State() == CapabilitiesDetached(old(State()), d.address, cs[..i])
      {
        Shorter(cs, i);
        DetachCapability(d, cs[i]);
      }
      Whole(cs);
    }
  }
}
