/**
 * One enumeration of a node, from its endpoints and their rule output to its devices (enumerate of
 * enumerate_device.go).
 */
module Enumeration {
  import opened Wrappers
  import opened Keys
  import opened Factory
  import RuleModel
  import opened EventLog
  import opened Persistence
  import opened Sequences
  import opened CapabilityPlan
  import opened Roster
  import opened GatewayState
  import opened Table
  import opened NodeUpdate
  import opened CapabilityUpdate

  // ---- Rules and grouping ----

  /** A capability's settings, and the settings of each implementation that the rules ask for. */
  type Settings = map<string, RuleModel.Value>
  type Capabilities = map<string, Settings>

  /** What is kept of an endpoint: the `DeviceID` of its description and its rule output. */
  datatype EndpointDetails = EndpointDetails(deviceId: nat, rulesOutput: Capabilities)

  type Inventory = map<Byte, EndpointDetails>

  datatype InventoryDevice = InventoryDevice(uniqueId: Byte, endpoints: seq<EndpointDetails>)

  /** The node's inventory with its rule output, if the node answers and the rules run on every endpoint. */
  function Interrogated(answer: Option<Inventory>, rules: Byte -> Option<Capabilities>): (r: Option<Inventory>)
    ensures r.Some? <==> answer.Some? && forall e <- answer.value :: rules(e).Some?
    ensures r.Some? ==> r.value.Keys == answer.value.Keys
    ensures r.Some? ==> forall e <- r.value :: rules(e) == Some(r.value[e].rulesOutput)
    ensures r.Some? ==> forall e <- r.value :: r.value[e].deviceId == answer.value[e].deviceId
  {
    if answer.None? || exists e <- answer.value :: rules(e).None? then None
    else Some(map e <- answer.value :: answer.value[e].(rulesOutput := rules(e).value))
  }

  /** Runs the rules for every endpoint as `Self`, in any order; one failure fails the enumeration. */
  method RunRules(answer: Inventory, rules: Byte -> Option<Capabilities>) returns (r: Option<Inventory>)
    ensures r == Interrogated(Some(answer), rules)
  {
    var queue := InSomeOrder(answer.Keys);
    var inv := answer;
    for k := 0 to |queue|
      invariant inv.Keys == answer.Keys
      invariant forall e <- queue[..k] :: e in answer && rules(e).Some?
      invariant forall e <- answer ::
                  inv[e] == if e in queue[..k] then answer[e].(rulesOutput := rules(e).value) else answer[e]
    {
      Prefix(queue, k);
      var e := queue[k];
      if rules(e).None? { return None; }
      inv := inv[e := inv[e].(rulesOutput := rules(e).value)];
    }
    Whole(queue);
    RulesRan(answer, rules, queue);
    assert inv == Interrogated(Some(answer), rules).value;
    return Some(inv);
  }

  lemma RulesRan(answer: Inventory, rules: Byte -> Option<Capabilities>, queue: seq<Byte>)
    requires Elements(queue) == answer.Keys && forall e <- queue :: rules(e).Some?
    ensures Interrogated(Some(answer), rules).Some? && forall e <- answer :: e in queue
  {
    forall e <- answer ensures e in queue && rules(e).Some? { assert e in Elements(queue); }
  }

  ghost predicate Increasing(s: seq<Byte>) {
    forall i, j | 0 <= i < j < |s| :: s[i] < s[j]
  }

  function InsertId(x: Byte, s: seq<Byte>): seq<Byte> {
    if s == [] || x <= s[0] then [x] + s else [s[0]] + InsertId(x, s[1..])
  }

  lemma {:induction false} InsertIdKeeps(x: Byte, s: seq<Byte>)
    requires Increasing(s) && x !in s
    ensures Increasing(InsertId(x, s)) && forall y :: y in InsertId(x, s) <==> y == x || y in s
  {
    if s != [] && x > s[0] {
      InsertIdKeeps(x, s[1..]);
      assert s == [s[0]] + s[1..];
      forall j | 0 <= j < |InsertId(x, s[1..])| ensures s[0] < InsertId(x, s[1..])[j] {
        assert InsertId(x, s[1..])[j] in InsertId(x, s[1..]);
      }
    }
  }

  lemma {:induction false} IncreasingUnique(s: seq<Byte>, t: seq<Byte>)
    requires Increasing(s) && Increasing(t) && Elements(s) == Elements(t)
    ensures s == t
  {
    EmptyOrNot(t);
    if s != [] {
      assert s[0] in Elements(t) && t[0] in Elements(s);
      assert s[0] == t[0];
      forall x ensures x in Elements(s[1..]) <==> x in Elements(t[1..]) {
        assert x in Elements(s[1..]) <==> x in Elements(s) && x != s[0];
        assert x in Elements(t[1..]) <==> x in Elements(t) && x != t[0];
      }
      IncreasingUnique(s[1..], t[1..]);
      assert s == [s[0]] + s[1..] && t == [t[0]] + t[1..];
    }
  }

  function Ids(ds: seq<InventoryDevice>): seq<Byte> {
    seq(|ds|, i requires 0 <= i < |ds| => ds[i].uniqueId)
  }

  /** One inventory device for each endpoint, in increasing order of endpoint numbers. */
  ghost predicate Grouped(inv: Inventory, ds: seq<InventoryDevice>) {
    && Increasing(Ids(ds)) && Elements(Ids(ds)) == inv.Keys
    && forall d <- ds :: d.uniqueId in inv && d.endpoints == [inv[d.uniqueId]]
  }

  /** The grouping depends on the rule output alone, not on the order a map delivers it. */
  lemma GroupingUnique(inv: Inventory, ds: seq<InventoryDevice>, es: seq<InventoryDevice>)
    requires Grouped(inv, ds) && Grouped(inv, es)
    ensures ds == es
  {
    IncreasingUnique(Ids(ds), Ids(es));
    assert |ds| == |Ids(ds)| == |Ids(es)| == |es|;
    forall i | 0 <= i < |ds| ensures ds[i] == es[i] {
      assert Ids(ds)[i] == Ids(es)[i];
      assert ds[i] in ds && es[i] in es;
    }
  }

  /** The devices' endpoints as the code groups them. */
  function CodeGroups(ds: seq<InventoryDevice>): set<set<Byte>> {
    set d | d in ds :: {d.uniqueId}
  }

  /** The endpoints grouped by their `DeviceID`, as the documentation describes devices. */
  function DocumentedGroups(inv: Inventory): set<set<Byte>> {
    set e | e in inv :: SameDeviceId(inv, inv[e].deviceId)
  }

  function SameDeviceId(inv: Inventory, deviceId: nat): set<Byte> {
    set e | e in inv && inv[e].deviceId == deviceId
  }

  /** The code groups endpoints as documented exactly when no two endpoints share a `DeviceID`. */
  lemma GroupedAsDocumentedIff(inv: Inventory, ds: seq<InventoryDevice>)
    requires Grouped(inv, ds)
    ensures CodeGroups(ds) == DocumentedGroups(inv) <==>
            forall e <- inv, f <- inv | inv[e].deviceId == inv[f].deviceId :: e == f
  {
    forall e: Byte ensures {e} in CodeGroups(ds) <==> e in inv {
      SingletonGroup(inv, ds, e);
    }
    if CodeGroups(ds) == DocumentedGroups(inv) {
      forall e <- inv, f <- inv | inv[e].deviceId == inv[f].deviceId ensures e == f {
        var group := SameDeviceId(inv, inv[e].deviceId);
        assert group in CodeGroups(ds);
        assert e in group && f in group;
      }
    } else if forall e <- inv, f <- inv | inv[e].deviceId == inv[f].deviceId :: e == f {
      forall e <- inv ensures SameDeviceId(inv, inv[e].deviceId) == {e} { }
      forall g ensures g in CodeGroups(ds) <==> g in DocumentedGroups(inv) {
        if g in CodeGroups(ds) { var d :| d in ds && g == {d.uniqueId}; }
      }
    }
  }

  lemma SingletonGroup(inv: Inventory, ds: seq<InventoryDevice>, e: Byte)
    requires Grouped(inv, ds)
    ensures {e} in CodeGroups(ds) <==> e in inv
  {
    assert e in inv <==> e in Elements(Ids(ds));
    if e in inv {
      var k :| 0 <= k < |Ids(ds)| && Ids(ds)[k] == e;
      assert ds[k] in ds && {ds[k].uniqueId} == {e};
    }
    if {e} in CodeGroups(ds) {
      var d :| d in ds && {d.uniqueId} == {e};
      assert d.uniqueId in {e};
    }
  }

  method CollectEndpoints(inv: Inventory) returns (devices: map<Byte, InventoryDevice>, ids: seq<Byte>)
    ensures Increasing(ids) && Elements(ids) == inv.Keys == devices.Keys
    ensures forall i <- devices :: i in inv && devices[i] == InventoryDevice(i, [inv[i]])
  {
    var queue := InSomeOrder(inv.Keys);
    devices, ids := map[], [];
    for k := 0 to |queue|
      invariant Increasing(ids) && Elements(ids) == Elements(queue[..k]) == devices.Keys
      invariant forall i <- devices :: i in inv && devices[i] == InventoryDevice(i, [inv[i]])
    {
      var i := queue[k];
      Prefix(queue, k);
      devices := devices[i := InventoryDevice(i, [inv[i]])];
      assert i !in Elements(ids);
      InsertIdKeeps(i, ids);
      ids := InsertId(i, ids);
    }
    Whole(queue);
  }

  method GroupInventoryDevices(inv: Inventory) returns (ds: seq<InventoryDevice>)
    ensures Grouped(inv, ds)
  {
    var devices, ids := CollectEndpoints(inv);
    ds := [];
    for k := 0 to |ids|
      invariant Ids(ds) == ids[..k]
      invariant forall d <- ds :: d.uniqueId in inv && d.endpoints == [inv[d.uniqueId]]
    {
      Prefix(ids, k);
      ds := ds + [devices[ids[k]]];
    }
    Whole(ids);
  }

  // ---- One device ----

  /** The device holds exactly what the rules ask for on its endpoint and `Enumerate` attached. */
  ghost predicate HoldsOutput(m: Mapping, e: Byte, asked: Capabilities, outcome: (Byte, string, Settings) -> Outcome,
                              held: Held) {
    forall c :: c in held <==>
                  exists name <- asked :: name in m && m[name] == c && outcome(e, name, asked[name]) == Attached
  }

  /** The statuses a device reports tell what it holds, and each held and each asked category has one. */
  ghost predicate Truthful(m: Mapping, asked: Capabilities, results: map<Category, bool>, held: Held) {
    && EnumerateDevice in results && held.Keys <= results.Keys
    && (forall name <- asked | name in m :: m[name] in results)
    && (forall c <- results :: results[c] <==> c in held || c == EnumerateDevice)
  }

  /** The outcomes on a device's only endpoint. */
  function OnOnlyEndpoint(e: Byte, asked: Capabilities, outcome: (Byte, string, Settings) -> Outcome)
    : (nat, string) -> Outcome {
    (_, name) => if name in asked then outcome(e, name, asked[name]) else Refused
  }

  lemma WantedIsAsked(m: Mapping, e: Byte, asked: Capabilities, outcome: (Byte, string, Settings) -> Outcome,
                      c: Category)
    ensures Wanted(m, [asked.Keys], OnOnlyEndpoint(e, asked, outcome), c) <==>
            exists name <- asked :: name in m && m[name] == c && outcome(e, name, asked[name]) == Attached
  {
    if name :| name in asked && name in m && m[name] == c && outcome(e, name, asked[name]) == Attached {
      assert name in [asked.Keys][0] && OnOnlyEndpoint(e, asked, outcome)(0, name) == Attached;
    }
  }

  lemma UpdatedIsRight(m: Mapping, held: Held, e: Byte, asked: Capabilities, orders: seq<seq<string>>,
                       create: string -> Option<Implementation>, outcome: (Byte, string, Settings) -> Outcome)
    requires WellMapped(m) && WellHeld(m, held) && Faithful(m, create) && Delivers(orders, [asked.Keys])
    ensures var p := Updated(m, held, AllAttempts(orders, create, OnOnlyEndpoint(e, asked, outcome)));
            HoldsOutput(m, e, asked, outcome, p.held) && Truthful(m, asked, p.status, p.held)
  {
    var each := OnOnlyEndpoint(e, asked, outcome);
    HoldsWhatIsWanted(m, held, [asked.Keys], orders, create, each);
    AttemptsLegal(m, orders, create, each);
    StatusCovers(m, held, AllAttempts(orders, create, each));
    forall c ensures Wanted(m, [asked.Keys], each, c) <==>
                     exists name <- asked :: name in m && m[name] == c && outcome(e, name, asked[name]) == Attached {
      WantedIsAsked(m, e, asked, outcome, c);
    }
    forall name <- asked | name in m ensures m[name] in Updated(m, held, AllAttempts(orders, create, each)).status {
      TriedIsAskedFor(m, [asked.Keys], orders, create, each, m[name]);
      assert name in [asked.Keys][0];
      StatusKeys(m, held, AllAttempts(orders, create, each), m[name]);
    }
    StatusKeys(m, held, AllAttempts(orders, create, each), EnumerateDevice);
  }

  /** The device's capabilities and reported statuses are those its endpoint's rule output leads to. */
  ghost predicate RowSettled(m: Mapping, r: Row, e: Byte, asked: Capabilities,
                             outcome: (Byte, string, Settings) -> Outcome) {
    HoldsOutput(m, e, asked, outcome, r.held) && Truthful(m, asked, r.results, r.held)
  }

  lemma ReportedEffect(m: Mapping, before: State, mid: State, a: Address, p: Progress, e: Byte, asked: Capabilities,
                       outcome: (Byte, string, Settings) -> Outcome)
    requires OnlyDevice(a, before, mid) && mid.rows[a].held == p.held
    requires HoldsOutput(m, e, asked, outcome, p.held) && Truthful(m, asked, p.status, p.held)
    requires Forgets(m, a, before, mid, [asked.Keys])
    ensures Forgets(m, a, before, Reported(mid, a, p.status), [asked.Keys])
    ensures OnlyDevice(a, before, Reported(mid, a, p.status))
    ensures RowSettled(m, Reported(mid, a, p.status).rows[a], e, asked, outcome)
  {
  }

  /** Updating the capabilities and then reporting the statuses settles the device. */
  lemma DeviceUpdated(m: Mapping, before: State, mid: State, a: Address, e: Byte, asked: Capabilities,
                      orders: seq<seq<string>>, create: string -> Option<Implementation>,
                      outcome: (Byte, string, Settings) -> Outcome, results: map<Category, bool>)
    requires WellMapped(m) && Inv(m, before) && Inv(m, mid) && Faithful(m, create) && Delivers(orders, [asked.Keys])
    requires OnlyDevice(a, before, mid) && Forgets(m, a, before, mid, [asked.Keys])
    requires var p := Updated(m, before.rows[a].held, AllAttempts(orders, create, OnOnlyEndpoint(e, asked, outcome)));
             mid.rows[a].held == p.held && results == p.status
    ensures Inv(m, Reported(mid, a, results)) && OnlyDevice(a, before, Reported(mid, a, results))
    ensures RowSettled(m, Reported(mid, a, results).rows[a], e, asked, outcome)
    ensures Forgets(m, a, before, Reported(mid, a, results), [asked.Keys])
  {
    UpdatedIsRight(m, before.rows[a].held, e, asked, orders, create, outcome);
    ReportedInv(m, mid, a, results);
    ReportedEffect(m, before, mid, a,
                   Updated(m, before.rows[a].held, AllAttempts(orders, create, OnOnlyEndpoint(e, asked, outcome))),
                   e, asked, outcome);
  }

  method UpdateDevice(z: Gateway, d: Device, e: Byte, asked: Capabilities, create: string -> Option<Implementation>,
                      outcome: (Byte, string, Settings) -> Outcome)
    requires z.Valid() && z.Live(d) && Faithful(z.mapping, create)
    modifies z`section, z`log, z`rows, d`capabilities, d`results
    ensures z.Valid() && OnlyDevice(d.address, old(z.State()), z.State())
    ensures RowSettled(z.mapping, z.rows[d.address], e, asked, outcome)
    ensures Forgets(z.mapping, d.address, old(z.State()), z.State(), [asked.Keys])
  {
    ghost var before := z.State();
    var results;
    ghost var orders;
    results, orders := UpdateCapabilities(z, d, [asked.Keys], create, OnOnlyEndpoint(e, asked, outcome));
    DeviceUpdated(z.mapping, before, z.State(), d.address, e, asked, orders, create, outcome, results);
    z.SetResults(d, results);
  }

  // ---- All devices of the node ----

  /** Ids, flags and the devices of other nodes are as before. */
  ghost predicate SameRoster(n: Ieee, before: State, after: State) {
    && after.nodes == before.nodes
    && (forall a :: a in after.rows <==> a in before.rows)
    && (forall a <- before.rows :: after.rows[a].id == before.rows[a].id && after.rows[a].isSet == before.rows[a].isSet)
    && (forall a <- before.rows | a.ieee != n :: after.rows[a] == before.rows[a])
  }

  lemma SameRosterMore(n: Ieee, a: Address, x: State, y: State, z: State)
    requires SameRoster(n, x, y) && OnlyDevice(a, y, z) && a.ieee == n
    ensures SameRoster(n, x, z)
  {
  }

  /** Each mapped device is the only one of the node that carries its id. */
  ghost predicate Own(n: Ieee, rows: Rows, mapping: map<Byte, Device>) {
    forall i <- mapping, b <- rows | b.ieee == n :: rows[b].id == i <==> b == mapping[i].address
  }

  lemma OwnStays(n: Ieee, before: State, after: State, mapping: map<Byte, Device>)
    requires Own(n, before.rows, mapping) && SameRoster(n, before, after)
    ensures Own(n, after.rows, mapping)
  {
  }

  /** The node's devices that carry one of these ids are settled. */
  ghost predicate SettledFor(m: Mapping, n: Ieee, rows: Rows, inv: Inventory,
                             outcome: (Byte, string, Settings) -> Outcome) {
    forall a <- rows | a.ieee == n && rows[a].id in inv ::
      RowSettled(m, rows[a], rows[a].id, inv[rows[a].id].rulesOutput, outcome)
  }

  /** So are those of the first inventory devices. */
  ghost predicate SettledFirst(m: Mapping, n: Ieee, rows: Rows, ds: seq<InventoryDevice>, k: nat,
                               inv: Inventory, outcome: (Byte, string, Settings) -> Outcome)
    requires k <= |ds|
  {
    forall a <- rows, l | 0 <= l < k && a.ieee == n && rows[a].id == ds[l].uniqueId && ds[l].uniqueId in inv ::
      RowSettled(m, rows[a], ds[l].uniqueId, inv[ds[l].uniqueId].rulesOutput, outcome)
  }

  lemma SettledMore(m: Mapping, n: Ieee, before: State, after: State, mapping: map<Byte, Device>,
                    ds: seq<InventoryDevice>, k: nat, inv: Inventory, outcome: (Byte, string, Settings) -> Outcome)
    requires k < |ds| && ds[k].uniqueId in inv && SettledFirst(m, n, before.rows, ds, k, inv, outcome)
    requires ds[k].uniqueId in mapping && Own(n, before.rows, mapping)
    requires var i := ds[k].uniqueId; var a := mapping[i].address;
             && a.ieee == n && OnlyDevice(a, before, after)
             && RowSettled(m, after.rows[a], i, inv[i].rulesOutput, outcome)
    ensures SettledFirst(m, n, after.rows, ds, k + 1, inv, outcome)
  {
  }

  lemma SettledAll(m: Mapping, n: Ieee, rows: Rows, ds: seq<InventoryDevice>, inv: Inventory,
                   outcome: (Byte, string, Settings) -> Outcome)
    requires Grouped(inv, ds) && SettledFirst(m, n, rows, ds, |ds|, inv, outcome)
    ensures SettledFor(m, n, rows, inv, outcome)
  {
    forall a <- rows | a.ieee == n && rows[a].id in inv
      ensures RowSettled(m, rows[a], rows[a].id, inv[rows[a].id].rulesOutput, outcome)
    {
      assert rows[a].id in Elements(Ids(ds));
      var l :| 0 <= l < |Ids(ds)| && Ids(ds)[l] == rows[a].id;
      assert ds[l].uniqueId == rows[a].id;
    }
  }

  // ---- What is left in the tree ----

  /** Some endpoint device of these asks for an implementation of the category on the device with this id. */
  ghost predicate AskedOn(m: Mapping, inv: Inventory, id: int, c: Category) {
    id in inv && exists name <- inv[id].rulesOutput :: name in m && m[name] == c
  }

  /** A section of a capability that is not held was left over before, or the first inventory devices ask for it. */
  ghost predicate TreeFirst(m: Mapping, n: Ieee, start: State, s: State, ds: seq<InventoryDevice>, k: nat,
                            inv: Inventory)
    requires k <= |ds|
  {
    forall a <- s.rows | a.ieee == n && a in start.rows :: forall c <- Sections(s, a) | c !in s.rows[a].held ::
      || (c in Sections(start, a) && c !in start.rows[a].held)
      || (AskedOn(m, inv, s.rows[a].id, c) && exists l | 0 <= l < k :: ds[l].uniqueId == s.rows[a].id)
  }

  ghost predicate OthersInTree(n: Ieee, before: Store, after: Store) {
    forall a: Address | a.ieee != n :: DeviceAt(after, a) == DeviceAt(before, a)
  }

  lemma OneAsked(m: Mapping, asked: Capabilities, c: Category)
    ensures AskedFor(m, [asked.Keys], c) <==> exists name <- asked :: name in m && m[name] == c
  {
    if name :| name in asked && name in m && m[name] == c { assert name in [asked.Keys][0]; }
  }

  lemma TreeMore(m: Mapping, n: Ieee, start: State, before: State, after: State, a: Address,
                 ds: seq<InventoryDevice>, k: nat, inv: Inventory)
    requires k < |ds| && ds[k].uniqueId in inv && a.ieee == n && TreeFirst(m, n, start, before, ds, k, inv)
    requires SameRoster(n, start, before) && OnlyDevice(a, before, after) && before.rows[a].id == ds[k].uniqueId
    requires Forgets(m, a, before, after, [inv[ds[k].uniqueId].rulesOutput.Keys])
    ensures TreeFirst(m, n, start, after, ds, k + 1, inv)
  {
    forall c ensures AskedFor(m, [inv[ds[k].uniqueId].rulesOutput.Keys], c) <==> AskedOn(m, inv, ds[k].uniqueId, c) {
      OneAsked(m, inv[ds[k].uniqueId].rulesOutput, c);
    }
    forall b <- after.rows, c | b.ieee == n && c in Sections(after, b) && c !in after.rows[b].held
      ensures || (c in Sections(start, b) && c !in start.rows[b].held)
              || (AskedOn(m, inv, after.rows[b].id, c)
                  && exists l | 0 <= l < k + 1 :: ds[l].uniqueId == after.rows[b].id)
    {
      if b != a {
        assert Sections(after, b) == Sections(before, b);
      } else if AskedOn(m, inv, ds[k].uniqueId, c) {
        assert ds[k].uniqueId == after.rows[b].id;
      }
    }
  }

  /** Each inventory id is mapped to a live device of the node. */
  ghost predicate AllLive(z: Gateway, n: Ieee, ids: set<Byte>, mapping: map<Byte, Device>)
    reads z
  {
    forall i <- ids :: i in mapping && mapping[i].address.ieee == n && z.Live(mapping[i])
  }

  /** After the first `k` devices: the rest of the table is untouched, and these devices are settled. */
  ghost predicate Far(m: Mapping, n: Ieee, start: State, s: State, mapping: map<Byte, Device>,
                      ds: seq<InventoryDevice>, k: nat, inv: Inventory, outcome: (Byte, string, Settings) -> Outcome)
    requires k <= |ds|
  {
    && SameRoster(n, start, s)
    && OthersInTree(n, start.section, s.section)
    && (Own(n, start.rows, mapping) ==>
          SettledFirst(m, n, s.rows, ds, k, inv, outcome) && TreeFirst(m, n, start, s, ds, k, inv))
  }

  lemma Further(m: Mapping, n: Ieee, start: State, before: State, after: State, mapping: map<Byte, Device>,
                ds: seq<InventoryDevice>, k: nat, inv: Inventory, outcome: (Byte, string, Settings) -> Outcome)
    requires k < |ds| && ds[k].uniqueId in inv && ds[k].uniqueId in mapping
    requires Far(m, n, start, before, mapping, ds, k, inv, outcome)
    requires var i := ds[k].uniqueId; var a := mapping[i].address;
             && a.ieee == n && OnlyDevice(a, before, after)
             && RowSettled(m, after.rows[a], i, inv[i].rulesOutput, outcome)
             && Forgets(m, a, before, after, [inv[i].rulesOutput.Keys])
    ensures Far(m, n, start, after, mapping, ds, k + 1, inv, outcome)
  {
    SameRosterMore(n, mapping[ds[k].uniqueId].address, start, before, after);
    if Own(n, start.rows, mapping) {
      OwnStays(n, start, before, mapping);
      SettledMore(m, n, before, after, mapping, ds, k, inv, outcome);
      TreeMore(m, n, start, before, after, mapping[ds[k].uniqueId].address, ds, k, inv);
    }
  }

  lemma FarStart(m: Mapping, n: Ieee, s: State, mapping: map<Byte, Device>, ds: seq<InventoryDevice>,
                 inv: Inventory, outcome: (Byte, string, Settings) -> Outcome)
    ensures Far(m, n, s, s, mapping, ds, 0, inv, outcome)
  {
  }

  method UpdateNext(z: Gateway, n: Ieee, inv: Inventory, ds: seq<InventoryDevice>, k: nat,
                    mapping: map<Byte, Device>, d: Device, create: string -> Option<Implementation>,
                    outcome: (Byte, string, Settings) -> Outcome, ghost start: State)
    requires k < |ds| && ds[k].uniqueId in inv && ds[k].uniqueId in mapping
    requires z.Valid() && Faithful(z.mapping, create)
    requires Far(z.mapping, n, start, z.State(), mapping, ds, k, inv, outcome)
    requires d == mapping[ds[k].uniqueId] && d.address.ieee == n && z.Live(d)
    modifies z`section, z`log, z`rows, d`capabilities, d`results
    ensures z.Valid() && Far(z.mapping, n, start, z.State(), mapping, ds, k + 1, inv, outcome)
  {
    var i := ds[k].uniqueId;
    ghost var before := z.State();
    UpdateDevice(z, d, i, inv[i].rulesOutput, create, outcome);
    Further(z.mapping, n, start, before, z.State(), mapping, ds, k, inv, outcome);
  }

  method UpdateDevices(z: Gateway, n: Ieee, inv: Inventory, ds: seq<InventoryDevice>, mapping: map<Byte, Device>,
                       create: string -> Option<Implementation>, outcome: (Byte, string, Settings) -> Outcome)
    requires z.Valid() && Faithful(z.mapping, create) && AllLive(z, n, inv.Keys, mapping)
    requires forall d <- ds :: d.uniqueId in inv
    modifies z`section, z`log, z`rows, z.device.Values`capabilities, z.device.Values`results
    ensures z.Valid() && Far(z.mapping, n, old(z.State()), z.State(), mapping, ds, |ds|, inv, outcome)
    ensures unchanged(z`device)
  {
    ghost var start := z.State();
    FarStart(z.mapping, n, start, mapping, ds, inv, outcome);
    for k := 0 to |ds|
      invariant z.Valid() && Far(z.mapping, n, start, z.State(), mapping, ds, k, inv, outcome)
    {
      assert ds[k] in ds;
      UpdateNext(z, n, inv, ds, k, mapping, mapping[ds[k].uniqueId], create, outcome, start);
    }
  }

  // ---- The whole enumeration ----

  /** One device for each endpoint; devices that matched stay, and unset ones are used before new ones are made. */
  ghost predicate OneDeviceEach(endpoints: set<Byte>, before: Devices, after: Devices) {
    && (forall e <- endpoints :: exists s <- after :: after[s] == Entry(e, true))
    && (forall s <- after :: after[s].isSet && after[s].id in endpoints)
    && (forall s <- after, t <- after | after[s].id == after[t].id :: s == t)
    && (forall s <- before | before[s].isSet && before[s].id in endpoints :: s in after && after[s] == before[s])
    && ((exists s <- after :: s !in before) ==> forall s <- before | !before[s].isSet :: s in after)
  }

  lemma ReconciledOneEach(r: Devices, ids: seq<Byte>, chosen: map<Byte, Byte>, unset: seq<Byte>)
    requires Sound(r) && Candidates(r, ids, chosen) && UnsetOrder(r, unset) && !Clash(r, ids)
    ensures OneDeviceEach(Elements(ids), r, Reconciled(r, ids, chosen, unset).devices)
    ensures Correct(ids, Reconciled(r, ids, chosen, unset))
  {
    ReconcileCorrect(r, ids, chosen, unset);
    var p := Reconciled(r, ids, chosen, unset);
    forall e <- Elements(ids) ensures exists s <- p.devices :: p.devices[s] == Entry(e, true) {
      assert p.devices[p.mapping[e]] == Entry(e, true);
    }
  }

  ghost predicate OthersKept(n: Ieee, before: Rows, after: Rows) {
    forall a: Address | a.ieee != n :: (a in after <==> a in before) && (a in before ==> after[a] == before[a])
  }

  /** The mapping's devices are at the sub-identifiers of the reconciliation's mapping. */
  ghost predicate PointsAt(n: Ieee, subs: map<Byte, Byte>, mapping: map<Byte, Device>) {
    mapping.Keys == subs.Keys && forall i <- mapping :: mapping[i].address == Address(n, subs[i])
  }

  lemma CorrectOwn(n: Ieee, rows: Rows, ids: seq<Byte>, p: Plan, mapping: map<Byte, Device>)
    requires Correct(ids, p) && RosterOf(rows, n) == p.devices && PointsAt(n, p.mapping, mapping)
    ensures Own(n, rows, mapping)
  {
    forall i <- mapping, b <- rows | b.ieee == n ensures rows[b].id == i <==> b == mapping[i].address {
      assert b == Address(n, b.sub) && b.sub in p.devices;
      assert p.devices[b.sub] == Entry(rows[b].id, rows[b].isSet);
    }
  }

  lemma SameRosterEffect(n: Ieee, before: State, after: State)
    requires SameRoster(n, before, after)
    ensures RosterOf(after.rows, n) == RosterOf(before.rows, n) && OthersKept(n, before.rows, after.rows)
  {
  }

  /** The node's table after an enumeration: its devices are the endpoints', and each is settled. */
  ghost predicate Enumerated(m: Mapping, n: Ieee, before: Rows, after: Rows, inv: Inventory,
                             outcome: (Byte, string, Settings) -> Outcome) {
    OneDeviceEach(inv.Keys, RosterOf(before, n), RosterOf(after, n)) && SettledFor(m, n, after, inv, outcome)
  }

  lemma EnumeratedDevice(m: Mapping, n: Ieee, before: Rows, after: Rows, inv: Inventory,
                         outcome: (Byte, string, Settings) -> Outcome, a: Address)
    requires Enumerated(m, n, before, after, inv, outcome) && a in after && a.ieee == n
    ensures after[a].isSet && after[a].id in inv
    ensures RowSettled(m, after[a], after[a].id, inv[after[a].id].rulesOutput, outcome)
  {
    var r := RosterOf(after, n);
    assert a == Address(n, a.sub) && a.sub in r && r[a.sub] == Entry(after[a].id, after[a].isSet);
  }

  lemma NodeUpdated(n: Ieee, before: Rows, after: Rows, ids: seq<Byte>, chosen: map<Byte, Byte>, unset: seq<Byte>,
                    mapping: map<Byte, Device>)
    requires Sound(RosterOf(before, n)) && Candidates(RosterOf(before, n), ids, chosen)
             && UnsetOrder(RosterOf(before, n), unset)
    requires var p := Reconciled(RosterOf(before, n), ids, chosen, unset);
             RosterOf(after, n) == p.devices && PointsAt(n, p.mapping, mapping)
    ensures !Clash(RosterOf(before, n), ids) ==>
              OneDeviceEach(Elements(ids), RosterOf(before, n), RosterOf(after, n)) && Own(n, after, mapping)
    ensures mapping.Keys == Elements(ids)
    ensures forall i <- mapping :: mapping[i].address in after && mapping[i].address.ieee == n
  {
    var r := RosterOf(before, n);
    MappedDevicesStay(r, ids, chosen, unset);
    if !Clash(r, ids) {
      ReconciledOneEach(r, ids, chosen, unset);
      CorrectOwn(n, after, ids, Reconciled(r, ids, chosen, unset), mapping);
    }
  }

  /** The node's surviving devices keep their capabilities, in the table and in the tree. */
  ghost predicate TableKept(n: Ieee, before: State, after: State) {
    OnlyIdsOf(n, before.rows, after.rows) && KeepsSections(n, before.section, after.section)
  }

  /**
   * What the tree has of a capability that a device of the node does not hold: a section left over from before, or one
   * that its rule output asks for. A capability that was held and is not asked for any more is gone from the tree.
   */
  ghost predicate TreeForgets(m: Mapping, n: Ieee, before: State, after: State, inv: Inventory) {
    && OthersInTree(n, before.section, after.section)
    && forall a <- after.rows | a.ieee == n :: forall c <- Sections(after, a) | c !in after.rows[a].held ::
         || (a in before.rows && c in Sections(before, a) && c !in before.rows[a].held)
         || AskedOn(m, inv, after.rows[a].id, c)
  }

  lemma TreeForgotten(m: Mapping, n: Ieee, before: State, mid: State, after: State, ds: seq<InventoryDevice>,
                      inv: Inventory)
    requires Inv(m, before) && Inv(m, mid) && TableKept(n, before, mid) && SameRoster(n, mid, after)
    requires OthersInTree(n, mid.section, after.section) && TreeFirst(m, n, mid, after, ds, |ds|, inv)
    ensures TreeForgets(m, n, before, after, inv)
  {
    forall a <- after.rows, c | a.ieee == n && c in Sections(after, a) && c !in after.rows[a].held
      ensures || (a in before.rows && c in Sections(before, a) && c !in before.rows[a].held)
              || AskedOn(m, inv, after.rows[a].id, c)
    {
      assert DeviceAt(mid.section, a).Some?;
      assert Sections(mid, a) == Sections(before, a);
      if c in Sections(before, a) { assert DeviceAt(before.section, a).Some?; }
    }
  }

  method UpdateTable(z: Gateway, n: Ieee, ids: seq<Byte>) returns (mapping: map<Byte, Device>)
    requires z.Valid() && n in z.node
    modifies z`section, z`log, z`device, z`rows, z.device.Values
    ensures z.Valid() && AllLive(z, n, Elements(ids), mapping) && mapping.Keys == Elements(ids)
    ensures OthersKept(n, old(z.rows), z.rows) && SameObjects(z, old(z.device))
    ensures TableKept(n, old(z.State()), z.State())
    ensures !Clash(RosterOf(old(z.rows), n), ids) ==>
              OneDeviceEach(Elements(ids), RosterOf(old(z.rows), n), RosterOf(z.rows, n)) && Own(n, z.rows, mapping)
  {
    ghost var s := z.State();
    RosterSound(z.mapping, s.nodes, s.rows, n);
    ghost var chosen, unset;
    mapping, chosen, unset := UpdateNodeTable(z, n, ids);
    NodeUpdated(n, s.rows, z.rows, ids, chosen, unset, mapping);
  }

  ghost predicate UnsetDevice(r: Devices) {
    exists s <- r :: !r[s].isSet
  }

  /** The node's table was updated to `mid` and then its devices one by one. */
  ghost predicate TableUpdated(m: Mapping, n: Ieee, before: State, mid: State, after: State,
                               mapping: map<Byte, Device>, ds: seq<InventoryDevice>, inv: Inventory,
                               outcome: (Byte, string, Settings) -> Outcome) {
    && OthersKept(n, before.rows, mid.rows) && TableKept(n, before, mid) && Inv(m, before) && Inv(m, mid)
    && (!Clash(RosterOf(before.rows, n), Ids(ds)) ==>
          OneDeviceEach(inv.Keys, RosterOf(before.rows, n), RosterOf(mid.rows, n)) && Own(n, mid.rows, mapping))
    && Far(m, n, mid, after, mapping, ds, |ds|, inv, outcome)
  }

  /** What the two updates amount to. */
  lemma EnumeratedOk(m: Mapping, n: Ieee, before: State, mid: State, after: State, mapping: map<Byte, Device>,
                     ds: seq<InventoryDevice>, inv: Inventory, outcome: (Byte, string, Settings) -> Outcome)
    requires Grouped(inv, ds) && TableUpdated(m, n, before, mid, after, mapping, ds, inv, outcome)
    ensures OthersKept(n, before.rows, after.rows)
    ensures !(0 in inv && UnsetDevice(RosterOf(before.rows, n))) ==>
              Enumerated(m, n, before.rows, after.rows, inv, outcome) && TreeForgets(m, n, before, after, inv)
  {
    SameRosterEffect(n, mid, after);
    assert 0 in Ids(ds) <==> 0 in Elements(Ids(ds));
    if !Clash(RosterOf(before.rows, n), Ids(ds)) {
      SettledAll(m, n, after.rows, ds, inv, outcome);
      TreeForgotten(m, n, before, mid, after, ds, inv);
    }
  }

  lemma GroupedIds(inv: Inventory, ds: seq<InventoryDevice>)
    requires Grouped(inv, ds)
    ensures Elements(Ids(ds)) == inv.Keys && forall d <- ds :: d.uniqueId in inv
  {
  }

  method UpdateTableAndDevices(z: Gateway, n: Ieee, inv: Inventory, ds: seq<InventoryDevice>,
                               create: string -> Option<Implementation>,
                               outcome: (Byte, string, Settings) -> Outcome)
    returns (ghost mid: State, ghost mapping: map<Byte, Device>)
    requires z.Valid() && n in z.node && Faithful(z.mapping, create)
    requires Elements(Ids(ds)) == inv.Keys && forall d <- ds :: d.uniqueId in inv
    modifies z`section, z`log, z`device, z`rows, z.device.Values
    ensures z.Valid() && SameObjects(z, old(z.device))
    ensures TableUpdated(z.mapping, n, old(z.State()), mid, z.State(), mapping, ds, inv, outcome)
  {
    var devices := UpdateTable(z, n, Ids(ds));
    mapping := devices;
    mid := z.State();
    UpdateDevices(z, n, inv, ds, devices, create, outcome);
  }

  /** From rule output to devices and their capabilities. */
  method Reconcile(z: Gateway, n: Ieee, inv: Inventory, create: string -> Option<Implementation>,
                   outcome: (Byte, string, Settings) -> Outcome)
    requires z.Valid() && n in z.node && Faithful(z.mapping, create)
    modifies z`section, z`log, z`device, z`rows, z.device.Values
    ensures z.Valid() && OthersKept(n, old(z.rows), z.rows) && SameObjects(z, old(z.device))
    ensures !(0 in inv && UnsetDevice(RosterOf(old(z.rows), n))) ==>
              && Enumerated(z.mapping, n, old(z.rows), z.rows, inv, outcome)
              && TreeForgets(z.mapping, n, old(z.State()), z.State(), inv)
  {
    var ds := GroupInventoryDevices(inv);
    GroupedIds(inv, ds);
    ghost var before := z.State();
    ghost var mid, mapping := UpdateTableAndDevices(z, n, inv, ds, create, outcome);
    EnumeratedOk(z.mapping, n, before, mid, z.State(), mapping, ds, inv, outcome);
  }

  /** The node's answer reaches the table: a failed query or rule changes nothing. */
  method Enumerate(z: Gateway, n: Ieee, answer: Option<Inventory>, rules: Byte -> Option<Capabilities>,
                   create: string -> Option<Implementation>, outcome: (Byte, string, Settings) -> Outcome)
    requires z.Valid() && n in z.node && Faithful(z.mapping, create)
    modifies z`section, z`log, z`device, z`rows, z.device.Values
    ensures z.Valid() && OthersKept(n, old(z.rows), z.rows) && SameObjects(z, old(z.device))
    ensures var inv := Interrogated(answer, rules);
            && (inv.None? ==> z.State() == old(z.State()))
            && (inv.Some? && !(0 in inv.value && UnsetDevice(RosterOf(old(z.rows), n))) ==>
                  && Enumerated(z.mapping, n, old(z.rows), z.rows, inv.value, outcome)
                  && TreeForgets(z.mapping, n, old(z.State()), z.State(), inv.value))
  {
    if answer.None? { return; }
    var inv := RunRules(answer.value, rules);
    if inv.None? { return; }
    Reconcile(z, n, inv.value, create, outcome);
  }
}
