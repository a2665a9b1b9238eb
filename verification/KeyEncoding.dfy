/** The tree as it is stored, under string keys, and how it carries the sections by address (persistence.go). */
module KeyEncoding {
  import opened Wrappers
  import opened Keys
  import opened EventLog
  import opened Persistence
  import opened Sequences

  /** The sections below one node's "Device". */
  type Devices = map<string, DeviceSection>

  /** The sections below "Node". */
  type Tree = map<string, Devices>

  /** The devices are under their decimal keys; any other key there is no integer. */
  ghost predicate CarriesDevices(d: Devices, s: map<Byte, DeviceSection>) {
    && (forall b: Byte :: DeviceKey(b) in d <==> b in s)
    && (forall b <- s :: d[DeviceKey(b)] == s[b])
    && (forall k <- d :: ParseInt(k).Some? ==> k == DeviceKey(ParseSubId(k).value))
  }

  /** The nodes are under their hexadecimal keys; any other key there is no hexadecimal address. */
  ghost predicate CarriesNodes(keys: set<string>, nodes: set<Ieee>) {
    && (forall n: Ieee :: NodeKey(n) in keys <==> n in nodes)
    && (forall k <- keys :: ParseHex(k).Some? ==> k == NodeKey(ParseHex(k).value))
  }

  ghost predicate Carries(t: Tree, s: Store) {
    && CarriesNodes(t.Keys, s.Keys)
    && (forall n <- s :: CarriesDevices(t[NodeKey(n)], s[n]))
  }

  /** A tree carries at most one store. */
  lemma CarriesOne(t: Tree, s: Store, s': Store)
    requires Carries(t, s) && Carries(t, s')
    ensures s == s'
  {
    forall n: Ieee ensures n in s <==> n in s' { assert NodeKey(n) in t <==> n in s; }
    forall n <- s ensures s[n] == s'[n] {
      CarriesOneDevices(t[NodeKey(n)], s[n], s'[n]);
    }
  }

  lemma CarriesOneDevices(d: Devices, s: map<Byte, DeviceSection>, s': map<Byte, DeviceSection>)
    requires CarriesDevices(d, s) && CarriesDevices(d, s')
    ensures s == s'
  {
    forall b: Byte ensures b in s <==> b in s' { assert DeviceKey(b) in d <==> b in s; }
  }

  // ---- Writing ----

  function DeviceKeys(s: map<Byte, DeviceSection>): set<string> {
    set b | b in s :: DeviceKey(b)
  }

  function NodeKeys(s: Store): set<string> {
    set n | n in s :: NodeKey(n)
  }

  function EncodeDevices(s: map<Byte, DeviceSection>): Devices {
    map k | k in DeviceKeys(s) :: s[ParseSubId(k).value]
  }

  function Encode(s: Store): Tree {
    map k | k in NodeKeys(s) :: EncodeDevices(s[ParseHex(k).value])
  }

  lemma EncodeDevicesCarries(s: map<Byte, DeviceSection>)
    ensures CarriesDevices(EncodeDevices(s), s)
  {
    forall b: Byte ensures DeviceKey(b) in EncodeDevices(s) <==> b in s {
      assert ParseSubId(DeviceKey(b)) == Some(b);
    }
  }

  /** Every store is carried by some tree. */
  lemma EncodeCarries(s: Store)
    ensures Carries(Encode(s), s)
  {
    forall n: Ieee ensures NodeKey(n) in Encode(s) <==> n in s {
      assert ParseHex(NodeKey(n)) == Some(n);
    }
    forall n <- s ensures CarriesDevices(Encode(s)[NodeKey(n)], s[n]) {
      EncodeDevicesCarries(s[n]);
    }
  }

  /** `sectionForNode` on the string keys. */
  function TreeForNode(t: Tree, n: Ieee): Tree {
    if NodeKey(n) in t then t else t[NodeKey(n) := map[]]
  }

  function TreePut(t: Tree, a: Address, d: DeviceSection): Tree {
    var u := TreeForNode(t, a.ieee);
    var devices: Devices := u[NodeKey(a.ieee)];
    u[NodeKey(a.ieee) := devices[DeviceKey(a.sub) := d]]
  }

  /** `sectionForDevice`. */
  function TreeForDevice(t: Tree, a: Address): Tree {
    if NodeKey(a.ieee) in t && DeviceKey(a.sub) in t[NodeKey(a.ieee)] then t else TreePut(t, a, EMPTY_DEVICE)
  }

  /** `sectionRemoveDevice`. */
  function TreeRemoveDevice(t: Tree, a: Address): Tree {
    var u := TreeForNode(t, a.ieee);
    var devices: Devices := u[NodeKey(a.ieee)];
    u[NodeKey(a.ieee) := devices - {DeviceKey(a.sub)}]
  }

  /** `sectionRemoveNode`. */
  function TreeRemoveNode(t: Tree, n: Ieee): Tree {
    t - {NodeKey(n)}
  }

  lemma NodeKeyAdded(keys: set<string>, nodes: set<Ieee>, n: Ieee)
    requires CarriesNodes(keys, nodes)
    ensures CarriesNodes(keys + {NodeKey(n)}, nodes + {n})
  {
    NodeKeysApart();
    assert ParseHex(NodeKey(n)) == Some(n);
  }

  lemma NodeWritten(t: Tree, s: Store, n: Ieee, d: Devices, e: map<Byte, DeviceSection>)
    requires Carries(t, s) && CarriesDevices(d, e)
    ensures Carries(t[NodeKey(n) := d], s[n := e])
  {
    var u, v := t[NodeKey(n) := d], s[n := e];
    NodeKeyAdded(t.Keys, s.Keys, n);
    assert u.Keys == t.Keys + {NodeKey(n)} && v.Keys == s.Keys + {n};
    NodeKeysApart();
    forall m <- v ensures CarriesDevices(u[NodeKey(m)], v[m]) { }
  }

  lemma ForNodeCarried(t: Tree, s: Store, n: Ieee)
    requires Carries(t, s)
    ensures Carries(TreeForNode(t, n), SectionForNode(s, n))
  {
    if n !in s { NodeWritten(t, s, n, map[], map[]); }
  }

  lemma DeviceWritten(d: Devices, s: map<Byte, DeviceSection>, b: Byte, e: DeviceSection)
    requires CarriesDevices(d, s)
    ensures CarriesDevices(d[DeviceKey(b) := e], s[b := e])
  {
    DeviceKeysApart();
  }

  lemma DeviceDeleted(d: Devices, s: map<Byte, DeviceSection>, b: Byte)
    requires CarriesDevices(d, s)
    ensures CarriesDevices(d - {DeviceKey(b)}, s - {b})
  {
    DeviceKeysApart();
  }

  lemma NodeDeleted(t: Tree, s: Store, n: Ieee)
    requires Carries(t, s)
    ensures Carries(TreeRemoveNode(t, n), RemoveNode(s, n))
  {
    NodeKeysApart();
  }

  lemma PutCarried(t: Tree, s: Store, a: Address, d: DeviceSection)
    requires Carries(t, s)
    ensures Carries(TreePut(t, a, d), PutDevice(s, a, d))
  {
    ForNodeCarried(t, s, a.ieee);
    var u, v := TreeForNode(t, a.ieee), SectionForNode(s, a.ieee);
    assert CarriesDevices(u[NodeKey(a.ieee)], v[a.ieee]);
    DeviceWritten(u[NodeKey(a.ieee)], v[a.ieee], a.sub, d);
    NodeWritten(u, v, a.ieee, u[NodeKey(a.ieee)][DeviceKey(a.sub) := d], v[a.ieee][a.sub := d]);
  }

  lemma RemoveCarried(t: Tree, s: Store, a: Address)
    requires Carries(t, s)
    ensures Carries(TreeRemoveDevice(t, a), RemoveDevice(s, a))
  {
    ForNodeCarried(t, s, a.ieee);
    var u, v := TreeForNode(t, a.ieee), SectionForNode(s, a.ieee);
    DeviceDeleted(u[NodeKey(a.ieee)], v[a.ieee], a.sub);
    NodeWritten(u, v, a.ieee, u[NodeKey(a.ieee)] - {DeviceKey(a.sub)}, v[a.ieee] - {a.sub});
  }

  lemma KnownDevice(t: Tree, s: Store, a: Address)
    requires Carries(t, s)
    ensures NodeKey(a.ieee) in t && DeviceKey(a.sub) in t[NodeKey(a.ieee)] <==> DeviceAt(s, a).Some?
    ensures DeviceAt(s, a).Some? ==> t[NodeKey(a.ieee)][DeviceKey(a.sub)] == DeviceAt(s, a).value
  {
    if a.ieee in s { assert CarriesDevices(t[NodeKey(a.ieee)], s[a.ieee]); }
  }

  /** Each operation on the string keys does to the carried store what the operation by address does. */
  lemma OperationsCarried(t: Tree, s: Store, a: Address, d: DeviceSection)
    requires Carries(t, s)
    ensures Carries(TreeForNode(t, a.ieee), SectionForNode(s, a.ieee))
    ensures Carries(TreeForDevice(t, a), SectionForDevice(s, a))
    ensures Carries(TreePut(t, a, d), PutDevice(s, a, d))
    ensures Carries(TreeRemoveDevice(t, a), RemoveDevice(s, a))
    ensures Carries(TreeRemoveNode(t, a.ieee), RemoveNode(s, a.ieee))
  {
    ForNodeCarried(t, s, a.ieee);
    KnownDevice(t, s, a);
    PutCarried(t, s, a, EMPTY_DEVICE);
    PutCarried(t, s, a, d);
    RemoveCarried(t, s, a);
    NodeDeleted(t, s, a.ieee);
  }

  // ---- Reading ----

  /** The addresses that the keys parse to. */
  function ParsedNodes(keys: seq<string>): seq<Ieee>
    decreases |keys|
  {
    if keys == [] then [] else
      var init, n := ParsedNodes(keys[..|keys| - 1]), ParseHex(keys[|keys| - 1]);
      if n.Some? then init + [n.value] else init
  }

  lemma {:induction false} ParsedNodesAre(keys: seq<string>)
    requires Distinct(keys) && forall k <- keys :: ParseHex(k).Some? ==> k == NodeKey(ParseHex(k).value)
    ensures Distinct(ParsedNodes(keys)) && forall n: Ieee :: n in ParsedNodes(keys) <==> NodeKey(n) in keys
    decreases |keys|
  {
    if keys != [] {
      Last(keys);
      ParsedNodesAre(keys[..|keys| - 1]);
      forall n: Ieee ensures NodeKey(n) == keys[|keys| - 1] <==> ParseHex(keys[|keys| - 1]) == Some(n) { }
    }
  }

  /** Reads back exactly the carried nodes, once each, whatever the order of the keys; other keys are skipped. */
  method NodeListFromPersistence(t: Tree) returns (nodes: seq<Ieee>)
    ensures forall s | Carries(t, s) :: Distinct(nodes) && Elements(nodes) == s.Keys
  {
    nodes := [];
    var keys := InSomeOrder(t.Keys);
    for k := 0 to |keys|
      invariant nodes == ParsedNodes(keys[..k])
    {
      Shorter(keys, k);
      var n := ParseHex(keys[k]);
      if n.Some? { nodes := nodes + [n.value]; }
    }
    Whole(keys);
    forall s | Carries(t, s) ensures Distinct(nodes) && Elements(nodes) == s.Keys { NodesRead(t, s, keys); }
  }

  lemma NodesRead(t: Tree, s: Store, keys: seq<string>)
    requires Carries(t, s) && Distinct(keys) && Elements(keys) == t.Keys
    ensures Distinct(ParsedNodes(keys)) && Elements(ParsedNodes(keys)) == s.Keys
  {
    forall k <- keys ensures ParseHex(k).Some? ==> k == NodeKey(ParseHex(k).value) { assert k in Elements(keys); }
    ParsedNodesAre(keys);
    forall n: Ieee ensures n in Elements(ParsedNodes(keys)) <==> n in s.Keys {
      assert NodeKey(n) in keys <==> NodeKey(n) in Elements(keys);
    }
  }

  /** The sub-identifiers that the keys parse to. */
  function ParsedDevices(keys: seq<string>): seq<Byte>
    decreases |keys|
  {
    if keys == [] then [] else
      var init, i := ParsedDevices(keys[..|keys| - 1]), ParseInt(keys[|keys| - 1]);
      if i.Some? then init + [i.value % 256] else init
  }

  lemma {:induction false} ParsedDevicesAre(keys: seq<string>)
    requires Distinct(keys) && forall k <- keys :: ParseInt(k).Some? ==> k == DeviceKey(ParseSubId(k).value)
    ensures Distinct(ParsedDevices(keys)) && forall b: Byte :: b in ParsedDevices(keys) <==> DeviceKey(b) in keys
    decreases |keys|
  {
    if keys != [] {
      Last(keys);
      ParsedDevicesAre(keys[..|keys| - 1]);
      forall b: Byte ensures DeviceKey(b) == keys[|keys| - 1] <==> ParseSubId(keys[|keys| - 1]) == Some(b) { }
    }
  }

  /** Reads back exactly the node's carried devices, once each. */
  method DeviceListFromPersistence(d: Devices, n: Ieee) returns (devices: seq<Address>)
    ensures forall s | CarriesDevices(d, s) ::
              Distinct(devices) && forall a :: a in devices <==> a.ieee == n && a.sub in s
  {
    devices := [];
    var keys := InSomeOrder(d.Keys);
    for k := 0 to |keys|
      invariant devices == Addressed(n, ParsedDevices(keys[..k]))
    {
      Shorter(keys, k);
      var i := ParseInt(keys[k]);
      if i.Some? { devices := devices + [Address(n, i.value % 256)]; }
    }
    Whole(keys);
    forall s | CarriesDevices(d, s)
      ensures Distinct(devices) && forall a :: a in devices <==> a.ieee == n && a.sub in s
    {
      DevicesRead(d, s, keys, n);
    }
  }

  function Addressed(n: Ieee, subs: seq<Byte>): seq<Address> {
    seq(|subs|, i requires 0 <= i < |subs| => Address(n, subs[i]))
  }

  lemma DevicesRead(d: Devices, s: map<Byte, DeviceSection>, keys: seq<string>, n: Ieee)
    requires CarriesDevices(d, s) && Distinct(keys) && Elements(keys) == d.Keys
    ensures var r := Addressed(n, ParsedDevices(keys)); Distinct(r) && forall a :: a in r <==> a.ieee == n && a.sub in s
  {
    forall k <- keys ensures ParseInt(k).Some? ==> k == DeviceKey(ParseSubId(k).value) { assert k in Elements(keys); }
    ParsedDevicesAre(keys);
    var subs := ParsedDevices(keys);
    forall a ensures a in Addressed(n, subs) <==> a.ieee == n && a.sub in s {
      assert DeviceKey(a.sub) in keys <==> DeviceKey(a.sub) in Elements(keys);
      if a.ieee == n && a.sub in subs {
        var i :| 0 <= i < |subs| && subs[i] == a.sub;
        assert Addressed(n, subs)[i] == a;
      }
    }
  }

  /** The map so far agrees with the carried one on the devices read. */
  ghost predicate ReadSoFar<K, V>(read: map<K, V>, s: map<K, V>, keys: seq<K>) {
    read.Keys == Elements(keys) && forall k <- read :: k in s && read[k] == s[k]
  }

  lemma ReadMore<K, V>(read: map<K, V>, s: map<K, V>, keys: seq<K>, k: nat)
    requires k < |keys| && ReadSoFar(read, s, keys[..k]) && keys[k] in s
    ensures ReadSoFar(read[keys[k] := s[keys[k]]], s, keys[..k + 1])
  {
    Prefix(keys, k);
  }

  lemma AllRead<K, V>(read: map<K, V>, s: map<K, V>, keys: seq<K>)
    requires ReadSoFar(read, s, keys) && Elements(keys) == s.Keys
    ensures read == s
  {
  }

  function Subs(listed: seq<Address>): seq<Byte> {
    seq(|listed|, i requires 0 <= i < |listed| => listed[i].sub)
  }

  lemma SubsListed(listed: seq<Address>, n: Ieee, subs: set<Byte>)
    requires forall a :: a in listed <==> a.ieee == n && a.sub in subs
    ensures Elements(Subs(listed)) == subs
  {
    forall b <- subs ensures b in Subs(listed) {
      assert Address(n, b) in listed;
      var i :| 0 <= i < |listed| && listed[i] == Address(n, b);
      assert Subs(listed)[i] == b;
    }
    forall b <- Subs(listed) ensures b in subs {
      var i :| 0 <= i < |Subs(listed)| && Subs(listed)[i] == b;
      assert listed[i] in listed;
    }
  }

  method SubIdentifiersOf(d: Devices, n: Ieee, ghost s: map<Byte, DeviceSection>) returns (subs: seq<Byte>)
    requires CarriesDevices(d, s)
    ensures Elements(subs) == s.Keys
  {
    var listed := DeviceListFromPersistence(d, n);
    SubsListed(listed, n, s.Keys);
    subs := Subs(listed);
  }

  method ReadDevices(d: Devices, n: Ieee, ghost s: map<Byte, DeviceSection>) returns (devices: map<Byte, DeviceSection>)
    requires CarriesDevices(d, s)
    ensures devices == s
  {
    var subs := SubIdentifiersOf(d, n, s);
    devices := map[];
    for k := 0 to |subs|
      invariant ReadSoFar(devices, s, subs[..k])
    {
      assert subs[k] in Elements(subs);
      ReadMore(devices, s, subs, k);
      devices := devices[subs[k] := d[DeviceKey(subs[k])]];
    }
    Whole(subs);
    AllRead(devices, s, subs);
  }

  method NodesOf(t: Tree, ghost s: Store) returns (nodes: seq<Ieee>)
    requires Carries(t, s)
    ensures Elements(nodes) == s.Keys
  {
    nodes := NodeListFromPersistence(t);
  }

  /** Reading the string keys, as the loader's loops do, yields the carried tree. */
  method ReadTree(t: Tree, ghost s: Store) returns (r: Store)
    requires Carries(t, s)
    ensures r == s
  {
    var nodes := NodesOf(t, s);
    r := map[];
    for k := 0 to |nodes|
      invariant ReadSoFar(r, s, nodes[..k])
    {
      assert nodes[k] in Elements(nodes);
      ReadMore(r, s, nodes, k);
      var devices := ReadDevices(t[NodeKey(nodes[k])], nodes[k], s[nodes[k]]);
      r := r[nodes[k] := devices];
    }
    Whole(nodes);
    AllRead(r, s, nodes);
  }
}
