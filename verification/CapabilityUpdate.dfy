/** Reconciling a device's capabilities in the table (updateCapabilitiesOnDevice of enumerate_device.go). */
module CapabilityUpdate {
  import opened Wrappers
  import opened Factory
  import opened EventLog
  import opened Persistence
  import opened Sequences
  import opened CapabilityPlan
  import opened GatewayState
  import opened Table

  // ---- One capability, on values ----

  /** Removing the implementation of another name, if one is held. */
  ghost function Cleared(s: State, a: Address, c: Category, t: Attempt): (r: State)
    requires a in s.rows
    ensures a in r.rows
  {
    var held := s.rows[a].held;
    if c in held && held[c].name != t.name then CapabilityDetached(s, a, held[c].category) else s
  }

  /** The implementation to enumerate: the one held under this name, else a new one with its section written. */
  ghost function Prepared(s: State, a: Address, c: Category, t: Attempt): (r: (State, Option<Implementation>))
    requires a in s.rows
    ensures a in r.0.rows
  {
    var held := s.rows[a].held;
    if c in held && held[c].name == t.name then (s, Some(held[c])) else
      var s1 := Cleared(s, a, c, t);
      (if t.made.None? then s1 else ImplementationStored(s1, a, c, t.name), t.made)
  }

  /** `enumerateCapabilityOnDevice` on the gateway's state. */
  ghost function Enumerated(s: State, a: Address, active: set<Category>, c: Category, t: Attempt): (r: (State, bool))
    requires a in s.rows
    ensures a in r.0.rows
  {
    if c in active then (s, false) else
      var (s', ready) := Prepared(s, a, c, t);
      if ready.None? then (s', false) else Settled(s', a, ready.value, t.outcome)
  }

  /** What becomes of the implementation once its `Enumerate` returned or panicked. */
  ghost function Settled(s: State, a: Address, i: Implementation, o: Outcome): (r: (State, bool))
    requires a in s.rows
    ensures a in r.0.rows
  {
    match o
    case Attached => (CapabilityAttached(s, a, i), true)
    case Refused => (CapabilityDetached(s, a, i.category), false)
    case Panicked => (s, false)
  }

  /** The capability loop's variables. */
  datatype Run = Run(state: State, active: set<Category>, status: map<Category, bool>)

  ghost function RunOne(m: Mapping, a: Address, r: Run, t: Attempt): (r': Run)
    requires a in r.state.rows
    ensures a in r'.state.rows
  {
    if t.name !in m then r else
      var c := m[t.name];
      var (s, attached) := Enumerated(r.state, a, r.active, c, t);
      Run(s, if attached then r.active + {c} else r.active, r.status[c := attached])
  }

  ghost function RunAll(m: Mapping, a: Address, r: Run, attempts: seq<Attempt>): (r': Run)
    requires a in r.state.rows
    ensures a in r'.state.rows
    decreases |attempts|
  {
    if attempts == [] then r else RunOne(m, a, RunAll(m, a, r, attempts[..|attempts| - 1]), attempts[|attempts| - 1])
  }

  ghost function Before(s: State): Run {
    Run(s, {}, map[EnumerateDevice := true])
  }

  // ---- What the loop does to the table ----

  /** Only this device changed, and not its id. */
  ghost predicate OnlyDevice(a: Address, before: State, after: State) {
    && a in before.rows && a in after.rows && after.nodes == before.nodes
    && after.rows[a].id == before.rows[a].id && after.rows[a].isSet == before.rows[a].isSet
    && (forall b :: b in after.rows <==> b in before.rows)
    && (forall b <- before.rows | b != a :: after.rows[b] == before.rows[b])
  }

  lemma OnlyDeviceTransitive(a: Address, x: State, y: State, z: State)
    requires OnlyDevice(a, x, y) && OnlyDevice(a, y, z)
    ensures OnlyDevice(a, x, z)
  {
  }

  lemma DetachEffect(s: State, a: Address, c: Category)
    requires a in s.rows
    ensures var r := CapabilityDetached(s, a, c); OnlyDevice(a, s, r) && r.rows[a].held == s.rows[a].held - {c}
  {
    if c !in s.rows[a].held { assert s.rows[a].held - {c} == s.rows[a].held; }
  }

  lemma AttachEffect(s: State, a: Address, i: Implementation)
    requires a in s.rows
    ensures var r := CapabilityAttached(s, a, i);
            OnlyDevice(a, s, r) && r.rows[a].held == s.rows[a].held[i.category := i]
  {
  }

  lemma ClearedEffect(m: Mapping, s: State, a: Address, c: Category, t: Attempt)
    requires a in s.rows && WellHeld(m, s.rows[a].held)
    ensures var r, held := Cleared(s, a, c, t), s.rows[a].held;
            OnlyDevice(a, s, r) && r.rows[a].held == if c in held && held[c].name != t.name then held - {c} else held
  {
    if c in s.rows[a].held { DetachEffect(s, a, c); }
  }

  lemma SettledEffect(s: State, a: Address, i: Implementation, o: Outcome)
    requires a in s.rows
    ensures var (r, attached) := Settled(s, a, i, o);
            && OnlyDevice(a, s, r) && attached == o.Attached?
            && r.rows[a].held == match o
                                 case Attached => s.rows[a].held[i.category := i]
                                 case Refused => s.rows[a].held - {i.category}
                                 case Panicked => s.rows[a].held
  {
    match o
    case Attached => AttachEffect(s, a, i);
    case Refused => DetachEffect(s, a, i.category);
    case Panicked =>
  }

  lemma PreparedEffect(m: Mapping, s: State, a: Address, c: Category, t: Attempt)
    requires a in s.rows && WellHeld(m, s.rows[a].held)
    ensures var (r, ready) := Prepared(s, a, c, t); var held := s.rows[a].held;
            && OnlyDevice(a, s, r) && ready == (if c in held && held[c].name == t.name then Some(held[c]) else t.made)
            && r.rows[a].held == if c in held && held[c].name != t.name then held - {c} else held
  {
    ClearedEffect(m, s, a, c, t);
  }

  lemma EnumeratedEffect(s: State, a: Address, active: set<Category>, c: Category, t: Attempt, m: Mapping)
    requires a in s.rows && WellHeld(m, s.rows[a].held)
    ensures OnlyDevice(a, s, Enumerated(s, a, active, c, t).0)
    ensures var r := Enumerated(s, a, active, c, t);
            (r.0.rows[a].held, r.1) == EnumerateOne(s.rows[a].held, active, c, t)
  {
    if c !in active {
      PreparedEffect(m, s, a, c, t);
      var (s', ready) := Prepared(s, a, c, t);
      if ready.Some? {
        SettledEffect(s', a, ready.value, t.outcome);
        OnlyDeviceTransitive(a, s, s', Settled(s', a, ready.value, t.outcome).0);
      }
    }
  }

  /** Attaching, replacing, refusing and failing all keep the gateway's invariants. */
  lemma EnumeratedInv(m: Mapping, s: State, a: Address, active: set<Category>, c: Category, t: Attempt)
    requires Inv(m, s) && WellMapped(m) && a in s.rows && FactoryMade(m, t)
    requires t.name in m && m[t.name] == c
    ensures Inv(m, Enumerated(s, a, active, c, t).0)
  {
    var held := s.rows[a].held;
    if c !in active {
      var found := c in held && held[c].name == t.name;
      var s1 := Cleared(s, a, c, t);
      if c in held && !found { CapabilityDetachedInv(m, s, a, held[c].category); }
      if found || t.made.Some? {
        var i := if found then held[c] else t.made.value;
        var s2 := if found then s1 else ImplementationStored(s1, a, c, t.name);
        if found {
          assert Stored(s2, a, i.category, i.name);
        } else {
          ImplementationStoredInv(m, s1, a, c, t.name);
        }
        match t.outcome
        case Attached => CapabilityAttachedInv(m, s2, a, i);
        case Refused => CapabilityDetachedInv(m, s2, a, i.category);
        case Panicked =>
      }
    }
  }

  /** The loop keeps the invariants, through every attempt. */
  lemma {:induction false} RunInv(m: Mapping, s: State, a: Address, attempts: seq<Attempt>)
    requires Inv(m, s) && WellMapped(m) && a in s.rows && AllFactoryMade(m, attempts)
    ensures Inv(m, RunAll(m, a, Before(s), attempts).state)
    decreases |attempts|
  {
    if attempts != [] {
      var init, t := attempts[..|attempts| - 1], attempts[|attempts| - 1];
      assert attempts == init + [t];
      RunInv(m, s, a, init);
      var r := RunAll(m, a, Before(s), init);
      if t.name in m { EnumeratedInv(m, r.state, a, r.active, m[t.name], t); }
    }
  }

  /** The loop carries out the capability plan on its device and touches no other. */
  lemma {:induction false} RunFollows(m: Mapping, s: State, a: Address, attempts: seq<Attempt>)
    requires Inv(m, s) && WellMapped(m) && a in s.rows && AllFactoryMade(m, attempts)
    ensures var r := RunAll(m, a, Before(s), attempts);
            && OnlyDevice(a, s, r.state)
            && Progress(r.state.rows[a].held, r.active, r.status) == Steps(m, Start(s.rows[a].held), attempts)
    decreases |attempts|
  {
    if attempts != [] {
      var init, t := attempts[..|attempts| - 1], attempts[|attempts| - 1];
      assert attempts == init + [t];
      RunFollows(m, s, a, init);
      var r := RunAll(m, a, Before(s), init);
      if t.name in m {
        assert WellHeld(m, r.state.rows[a].held) by { RunInv(m, s, a, init); }
        EnumeratedEffect(r.state, a, r.active, m[t.name], t, m);
      }
    }
  }

  // ---- What the loop leaves in the tree ----

  /** A section of a capability that is not held was there already, of one not held then, or an attempt wrote it. */
  ghost predicate LeftOver(m: Mapping, were: map<Category, CapabilitySection>, wereHeld: Held,
                           sections: map<Category, CapabilitySection>, held: Held, attempts: seq<Attempt>) {
    forall c <- sections | c !in held ::
      || (c in were && c !in wereHeld)
      || exists t <- attempts :: t.name in m && m[t.name] == c && sections[c] == CapabilitySection(Some(t.name))
  }

  /** Beyond that, nothing else in the tree changed. */
  ghost predicate Leaves(m: Mapping, s0: State, s: State, a: Address, attempts: seq<Attempt>) {
    && a in s0.rows && a in s.rows && OnlySections(a, s0.section, s.section)
    && LeftOver(m, Sections(s0, a), s0.rows[a].held, Sections(s, a), s.rows[a].held, attempts)
  }

  lemma LeavesMore(m: Mapping, s0: State, s: State, a: Address, attempts: seq<Attempt>, t: Attempt)
    requires Leaves(m, s0, s, a, attempts)
    ensures Leaves(m, s0, s, a, attempts + [t])
  {
    assert forall u <- attempts :: u in attempts + [t];
  }

  lemma DetachedLeaves(m: Mapping, s0: State, s: State, a: Address, c: Category, attempts: seq<Attempt>)
    requires Leaves(m, s0, s, a, attempts)
    ensures Leaves(m, s0, CapabilityDetached(s, a, c), a, attempts)
  {
    DetachedSections(s, a, c);
    DetachEffect(s, a, c);
  }

  lemma PreparedLeaves(m: Mapping, s0: State, s: State, a: Address, c: Category, t: Attempt, attempts: seq<Attempt>)
    requires Leaves(m, s0, s, a, attempts) && WellHeld(m, s.rows[a].held)
    requires t.name in m && m[t.name] == c && t in attempts
    ensures var (r, ready) := Prepared(s, a, c, t);
            Leaves(m, s0, r, a, attempts) && (t.made.Some? ==> c in Sections(r, a) || c in r.rows[a].held)
  {
    var held := s.rows[a].held;
    if !(c in held && held[c].name == t.name) {
      var s1 := Cleared(s, a, c, t);
      if c in held { DetachedLeaves(m, s0, s, a, c, attempts); }
      if t.made.Some? { StoredSections(s1, a, c, t.name); }
    }
  }

  lemma SettledLeaves(m: Mapping, s0: State, s: State, a: Address, i: Implementation, o: Outcome,
                      attempts: seq<Attempt>)
    requires Leaves(m, s0, s, a, attempts) && i.category in Sections(s, a)
    ensures Leaves(m, s0, Settled(s, a, i, o).0, a, attempts)
  {
    match o
    case Attached =>
      AttachedSections(s, a, i);
      AttachEffect(s, a, i);
    case Refused => DetachedLeaves(m, s0, s, a, i.category, attempts);
    case Panicked =>
  }

  /** One attempt leaves no section behind but what it wrote itself. */
  lemma EnumeratedLeaves(m: Mapping, s0: State, s: State, a: Address, active: set<Category>, c: Category, t: Attempt,
                         attempts: seq<Attempt>)
    requires Leaves(m, s0, s, a, attempts) && Inv(m, s) && FactoryMade(m, t)
    requires t.name in m && m[t.name] == c && t in attempts
    ensures Leaves(m, s0, Enumerated(s, a, active, c, t).0, a, attempts)
  {
    if c !in active {
      PreparedLeaves(m, s0, s, a, c, t, attempts);
      PreparedReady(m, s, a, c, t);
      var (s', ready) := Prepared(s, a, c, t);
      if ready.Some? { SettledLeaves(m, s0, s', a, ready.value, t.outcome, attempts); }
    }
  }

  lemma PreparedReady(m: Mapping, s: State, a: Address, c: Category, t: Attempt)
    requires Inv(m, s) && a in s.rows && FactoryMade(m, t) && t.name in m && m[t.name] == c
    ensures var (r, ready) := Prepared(s, a, c, t); ready.Some? ==> ready.value.category == c && c in Sections(r, a)
  {
    var held := s.rows[a].held;
    assert SectionMatches(m, s.rows[a], DeviceAt(s.section, a).value);
    if !(c in held && held[c].name == t.name) && t.made.Some? {
      var s1 := Cleared(s, a, c, t);
      if c in held { DetachedSections(s, a, c); }
      StoredSections(s1, a, c, t.name);
    }
  }

  /** The loop leaves no section behind but what its attempts wrote. */
  lemma {:induction false} RunLeaves(m: Mapping, s: State, a: Address, attempts: seq<Attempt>)
    requires Inv(m, s) && WellMapped(m) && a in s.rows && AllFactoryMade(m, attempts)
    ensures Leaves(m, s, RunAll(m, a, Before(s), attempts).state, a, attempts)
    decreases |attempts|
  {
    if attempts == [] {
      assert DeviceAt(s.section, a).Some?;
    } else {
      var init, t := attempts[..|attempts| - 1], attempts[|attempts| - 1];
      assert attempts == init + [t];
      RunLeaves(m, s, a, init);
      RunInv(m, s, a, init);
      var r := RunAll(m, a, Before(s), init);
      LeavesMore(m, s, r.state, a, init, t);
      if t.name in m { EnumeratedLeaves(m, s, r.state, a, r.active, m[t.name], t, attempts); }
    }
  }

  lemma {:induction false} CapabilitiesDetachedLeaves(m: Mapping, s0: State, s: State, a: Address, cs: seq<Category>,
                                                      attempts: seq<Attempt>)
    requires Leaves(m, s0, s, a, attempts)
    ensures Leaves(m, s0, CapabilitiesDetached(s, a, cs), a, attempts)
    decreases |cs|
  {
    if cs != [] {
      CapabilitiesDetachedLeaves(m, s0, s, a, cs[..|cs| - 1], attempts);
      DetachedLeaves(m, s0, CapabilitiesDetached(s, a, cs[..|cs| - 1]), a, cs[|cs| - 1], attempts);
    }
  }

  // ---- The loops in the table ----

  method Prepare(z: Gateway, d: Device, c: Category, t: Attempt) returns (ready: Option<Implementation>)
    requires z.Shape() && z.Live(d)
    modifies z`section, z`log, z`rows, d`capabilities
    ensures z.Shape() && (z.State(), ready) == Prepared(old(z.State()), d.address, c, t)
  {
    if c in d.capabilities && d.capabilities[c].name == t.name { return Some(d.capabilities[c]); }
    if c in d.capabilities { z.DetachCapability(d, d.capabilities[c].category); }
    ready := t.made;
    if ready.Some? { z.StoreImplementation(d, c, t.name); }
  }

  method Settle(z: Gateway, d: Device, i: Implementation, o: Outcome) returns (attached: bool)
    requires z.Shape() && z.Live(d)
    modifies z`section, z`log, z`rows, d`capabilities
    ensures z.Shape() && (z.State(), attached) == Settled(old(z.State()), d.address, i, o)
  {
    match o {
      case Attached =>
        z.AttachCapability(d, i);
        attached := true;
      case Refused =>
        z.DetachCapability(d, i.category);
        attached := false;
      case Panicked =>
        attached := false;
    }
  }

  method EnumerateCapability(z: Gateway, d: Device, active: set<Category>, c: Category, t: Attempt)
    returns (attached: bool)
    requires z.Shape() && z.Live(d)
    modifies z`section, z`log, z`rows, d`capabilities
    ensures z.Shape() && (z.State(), attached) == Enumerated(old(z.State()), d.address, active, c, t)
  {
    if c in active { return false; }
    var ready := Prepare(z, d, c, t);
    if ready.None? { return false; }
    attached := Settle(z, d, ready.value, t.outcome);
  }

  /** What the rule output of one endpoint asks to try, its names in the order the map delivers them. */
  function EndpointAttempts(k: nat, names: seq<string>, create: string -> Option<Implementation>,
                            outcome: (nat, string) -> Outcome): (r: seq<Attempt>)
    ensures |r| == |names|
  {
    seq(|names|, i requires 0 <= i < |names| => Attempt(names[i], create(names[i]), outcome(k, names[i])))
  }

  function AllAttempts(orders: seq<seq<string>>, create: string -> Option<Implementation>,
                       outcome: (nat, string) -> Outcome): seq<Attempt>
    decreases |orders|
  {
    if orders == [] then [] else
      var k := |orders| - 1;
      AllAttempts(orders[..k], create, outcome) + EndpointAttempts(k, orders[k], create, outcome)
  }

  /** The orders deliver the endpoints' names, each endpoint's names once each. */
  ghost predicate Delivers(orders: seq<seq<string>>, endpoints: seq<set<string>>) {
    && |orders| == |endpoints|
    && forall k | 0 <= k < |orders| :: Distinct(orders[k]) && Elements(orders[k]) == endpoints[k]
  }

  lemma {:induction false} AttemptIn(orders: seq<seq<string>>, create: string -> Option<Implementation>,
                                     outcome: (nat, string) -> Outcome, t: Attempt)
    ensures t in AllAttempts(orders, create, outcome) <==>
            exists k | 0 <= k < |orders| ::
              t.name in orders[k] && t == Attempt(t.name, create(t.name), outcome(k, t.name))
    decreases |orders|
  {
    if orders != [] {
      var k := |orders| - 1;
      var last := EndpointAttempts(k, orders[k], create, outcome);
      AttemptIn(orders[..k], create, outcome, t);
      if t.name in orders[k] && t == Attempt(t.name, create(t.name), outcome(k, t.name)) {
        var i :| 0 <= i < |orders[k]| && orders[k][i] == t.name;
        assert last[i] == t;
      }
      if k' :| 0 <= k' < |orders| && t.name in orders[k'] && t == Attempt(t.name, create(t.name), outcome(k', t.name)) {
        if k' < k { assert orders[..k][k'] == orders[k']; }
      }
    }
  }

  /** Some endpoint asks for an implementation of the category and its `Enumerate` reports it attached. */
  ghost predicate Wanted(m: Mapping, endpoints: seq<set<string>>, outcome: (nat, string) -> Outcome, c: Category) {
    exists k, name | 0 <= k < |endpoints| && name in endpoints[k] ::
      name in m && m[name] == c && outcome(k, name) == Attached
  }

  lemma AttemptsLegal(m: Mapping, orders: seq<seq<string>>, create: string -> Option<Implementation>,
                      outcome: (nat, string) -> Outcome)
    requires Faithful(m, create)
    ensures var ts := AllAttempts(orders, create, outcome);
            AllFactoryMade(m, ts) && forall t <- ts | t.name in m :: t.made.Some?
  {
    var ts := AllAttempts(orders, create, outcome);
    forall t <- ts ensures FactoryMade(m, t) && (t.name in m ==> t.made.Some?) {
      AttemptIn(orders, create, outcome, t);
    }
  }

  lemma WantedIsAttached(m: Mapping, endpoints: seq<set<string>>, orders: seq<seq<string>>,
                         create: string -> Option<Implementation>, outcome: (nat, string) -> Outcome, c: Category)
    requires Faithful(m, create) && Delivers(orders, endpoints)
    ensures SomeAttaches(m, AllAttempts(orders, create, outcome), c) <==> Wanted(m, endpoints, outcome, c)
  {
    var ts := AllAttempts(orders, create, outcome);
    if SomeAttaches(m, ts, c) {
      var t :| t in ts && Attaches(m, t, c);
      AttemptIn(orders, create, outcome, t);
      var k :| 0 <= k < |orders| && t.name in orders[k] && t == Attempt(t.name, create(t.name), outcome(k, t.name));
      assert t.name in Elements(orders[k]);
    }
    if Wanted(m, endpoints, outcome, c) {
      var k, name :| && 0 <= k < |endpoints| && name in endpoints[k]
                     && name in m && m[name] == c && outcome(k, name) == Attached;
      var t := Attempt(name, create(name), outcome(k, name));
      assert name in Elements(orders[k]);
      AttemptIn(orders, create, outcome, t);
      assert Attaches(m, t, c);
    }
  }

  /** Some endpoint asks for an implementation of the category. */
  ghost predicate AskedFor(m: Mapping, endpoints: seq<set<string>>, c: Category) {
    exists k, name | 0 <= k < |endpoints| && name in endpoints[k] :: name in m && m[name] == c
  }

  lemma TriedIsAskedFor(m: Mapping, endpoints: seq<set<string>>, orders: seq<seq<string>>,
                        create: string -> Option<Implementation>, outcome: (nat, string) -> Outcome, c: Category)
    requires Delivers(orders, endpoints)
    ensures Tried(m, AllAttempts(orders, create, outcome), c) <==> AskedFor(m, endpoints, c)
  {
    var ts := AllAttempts(orders, create, outcome);
    if Tried(m, ts, c) {
      var t :| t in ts && t.name in m && m[t.name] == c;
      AttemptIn(orders, create, outcome, t);
      var k :| 0 <= k < |orders| && t.name in orders[k];
      assert t.name in Elements(orders[k]);
    }
    if AskedFor(m, endpoints, c) {
      var k, name :| 0 <= k < |endpoints| && name in endpoints[k] && name in m && m[name] == c;
      assert name in Elements(orders[k]);
      AttemptIn(orders, create, outcome, Attempt(name, create(name), outcome(k, name)));
    }
  }

  /** The device holds exactly what the rule output asks for and `Enumerate` attached, whatever it held before. */
  lemma HoldsWhatIsWanted(m: Mapping, held: Held, endpoints: seq<set<string>>, orders: seq<seq<string>>,
                          create: string -> Option<Implementation>, outcome: (nat, string) -> Outcome)
    requires WellMapped(m) && WellHeld(m, held) && Faithful(m, create) && Delivers(orders, endpoints)
    ensures var p := Updated(m, held, AllAttempts(orders, create, outcome));
            && WellHeld(m, p.held)
            && (forall c :: c in p.held <==> Wanted(m, endpoints, outcome, c))
            && (|endpoints| <= 1 ==> StatusTruthful(p))
  {
    var ts := AllAttempts(orders, create, outcome);
    AttemptsLegal(m, orders, create, outcome);
    HeldExactly(m, held, ts);
    forall c ensures SomeAttaches(m, ts, c) <==> Wanted(m, endpoints, outcome, c) {
      WantedIsAttached(m, endpoints, orders, create, outcome, c);
    }
    if |endpoints| <= 1 { OneEndpointReportsTruthfully(m, held, endpoints, orders, create, outcome); }
  }

  lemma OneEndpointReportsTruthfully(m: Mapping, held: Held, endpoints: seq<set<string>>, orders: seq<seq<string>>,
                                     create: string -> Option<Implementation>, outcome: (nat, string) -> Outcome)
    requires WellMapped(m) && WellHeld(m, held) && Faithful(m, create)
    requires Delivers(orders, endpoints) && |endpoints| <= 1
    ensures StatusTruthful(Updated(m, held, AllAttempts(orders, create, outcome)))
  {
    var ts := AllAttempts(orders, create, outcome);
    AttemptsLegal(m, orders, create, outcome);
    if |orders| == 1 {
      assert orders[..0] == [];
      assert ts == EndpointAttempts(0, orders[0], create, outcome);
      forall i, j | 0 <= i < j < |ts| ensures ts[i].name != ts[j].name {
        assert ts[i].name == orders[0][i] && ts[j].name == orders[0][j];
      }
    }
    OneEndpointTruthful(m, held, ts);
  }

  // ---- The whole method ----

  lemma {:induction false} RunAllConcat(m: Mapping, a: Address, r: Run, ts: seq<Attempt>, us: seq<Attempt>)
    requires a in r.state.rows
    ensures RunAll(m, a, r, ts + us) == RunAll(m, a, RunAll(m, a, r, ts), us)
    decreases |us|
  {
    if us == [] {
      assert ts + us == ts;
    } else {
      assert (ts + us)[..|ts + us| - 1] == ts + us[..|us| - 1];
      RunAllConcat(m, a, r, ts, us[..|us| - 1]);
    }
  }

  method TryOne(z: Gateway, d: Device, active0: set<Category>, status0: map<Category, bool>, t: Attempt)
    returns (active: set<Category>, status: map<Category, bool>)
    requires z.Shape() && z.Live(d)
    modifies z`section, z`log, z`rows, d`capabilities
    ensures z.Shape() && Run(z.State(), active, status) ==
            RunOne(z.mapping, d.address, Run(old(z.State()), active0, status0), t)
  {
    active, status := active0, status0;
    if t.name in z.mapping {
      var c := z.mapping[t.name];
      var attached := EnumerateCapability(z, d, active, c, t);
      status := status[c := attached];
      if attached { active := active + {c}; }
    }
  }

  method TryAll(z: Gateway, d: Device, attempts: seq<Attempt>, active0: set<Category>, status0: map<Category, bool>)
    returns (active: set<Category>, status: map<Category, bool>)
    requires z.Shape() && z.Live(d)
    modifies z`section, z`log, z`rows, d`capabilities
    ensures z.Shape()
    ensures Run(z.State(), active, status) ==
            RunAll(z.mapping, d.address, Run(old(z.State()), active0, status0), attempts)
  {
    active, status := active0, status0;
    ghost var start := Run(z.State(), active0, status0);
    for i := 0 to |attempts|
      invariant z.Shape() && z.Live(d)
      invariant Run(z.State(), active, status) == RunAll(z.mapping, d.address, start, attempts[..i])
    {
      Shorter(attempts, i);
      active, status := TryOne(z, d, active, status, attempts[i]);
    }
    Whole(attempts);
  }

  /** One endpoint after another. */
  ghost function RunOrders(m: Mapping, a: Address, r: Run, orders: seq<seq<string>>,
                           create: string -> Option<Implementation>, outcome: (nat, string) -> Outcome): (r': Run)
    requires a in r.state.rows
    ensures a in r'.state.rows
    decreases |orders|
  {
    if orders == [] then r else
      var k := |orders| - 1;
      RunAll(m, a, RunOrders(m, a, r, orders[..k], create, outcome), EndpointAttempts(k, orders[k], create, outcome))
  }

  lemma {:induction false} RunOrdersIsRunAll(m: Mapping, a: Address, r: Run, orders: seq<seq<string>>,
                                             create: string -> Option<Implementation>,
                                             outcome: (nat, string) -> Outcome)
    requires a in r.state.rows
    ensures RunOrders(m, a, r, orders, create, outcome) == RunAll(m, a, r, AllAttempts(orders, create, outcome))
    decreases |orders|
  {
    if orders != [] {
      var k := |orders| - 1;
      RunOrdersIsRunAll(m, a, r, orders[..k], create, outcome);
      RunAllConcat(m, a, r, AllAttempts(orders[..k], create, outcome), EndpointAttempts(k, orders[k], create, outcome));
    }
  }

  lemma DeliversMore(orders: seq<seq<string>>, endpoints: seq<set<string>>, order: seq<string>, k: nat)
    requires k < |endpoints| && Delivers(orders, endpoints[..k]) && Distinct(order) && Elements(order) == endpoints[k]
    ensures Delivers(orders + [order], endpoints[..k + 1]) && (orders + [order])[..k] == orders
  {
  }

  method EnumerateEndpoints(z: Gateway, d: Device, endpoints: seq<set<string>>,
                            create: string -> Option<Implementation>,
                            outcome: (nat, string) -> Outcome)
    returns (active: set<Category>, status: map<Category, bool>, ghost orders: seq<seq<string>>)
    requires z.Shape() && z.Live(d)
    modifies z`section, z`log, z`rows, d`capabilities
    ensures z.Shape() && Delivers(orders, endpoints)
    ensures Run(z.State(), active, status) ==
            RunOrders(z.mapping, d.address, Before(old(z.State())), orders, create, outcome)
  {
    active, status, orders := {}, map[EnumerateDevice := true], [];
    ghost var start := Before(z.State());
    for k := 0 to |endpoints|
      invariant z.Shape() && z.Live(d) && |orders| == k && Delivers(orders, endpoints[..k])
      invariant Run(z.State(), active, status) == RunOrders(z.mapping, d.address, start, orders, create, outcome)
    {
      var order := InSomeOrder(endpoints[k]);
      DeliversMore(orders, endpoints, order, k);
      orders := orders + [order];
      active, status := TryAll(z, d, EndpointAttempts(k, order, create, outcome), active, status);
    }
    Whole(endpoints);
  }

  function Unattached(status: map<Category, bool>, cs: seq<Category>): map<Category, bool>
    decreases |cs|
  {
    if cs == [] then status else Unattached(status, cs[..|cs| - 1])[cs[|cs| - 1] := false]
  }

  lemma {:induction false} UnattachedIs(status: map<Category, bool>, cs: seq<Category>)
    ensures Unattached(status, cs) == status + map c <- Elements(cs) :: false
    decreases |cs|
  {
    if cs != [] {
      UnattachedIs(status, cs[..|cs| - 1]);
      assert cs == cs[..|cs| - 1] + [cs[|cs| - 1]];
    }
  }

  method MarkUnattached(status0: map<Category, bool>, cs: seq<Category>) returns (status: map<Category, bool>)
    ensures status == Unattached(status0, cs)
  {
    status := status0;
    for i := 0 to |cs|
      invariant status == Unattached(status0, cs[..i])
    {
      Shorter(cs, i);
      status := status[cs[i] := false];
    }
    Whole(cs);
  }

  method DetachRedundant(z: Gateway, d: Device, active: set<Category>, status0: map<Category, bool>)
    returns (status: map<Category, bool>, ghost detached: seq<Category>)
    requires z.Shape() && z.Live(d)
    modifies z`section, z`log, z`rows, d`capabilities
    ensures z.Shape() && z.State() == CapabilitiesDetached(old(z.State()), d.address, detached)
    ensures Distinct(detached) && Elements(detached) == old(d.capabilities).Keys - active
    ensures status == Unattached(status0, detached)
  {
    var redundant := InSomeOrder(d.capabilities.Keys - active);
    detached := redundant;
    status := MarkUnattached(status0, redundant);
    z.DetachEach(d, redundant);
  }

  lemma DetachedEffect(s: State, r: State, a: Address, cs: seq<Category>)
    requires OnlyDevice(a, s, r) && Distinct(cs) && Elements(cs) <= r.rows[a].held.Keys
    ensures OnlyDevice(a, s, CapabilitiesDetached(r, a, cs))
    ensures CapabilitiesDetached(r, a, cs).rows[a].held == r.rows[a].held - Elements(cs)
  {
    CapabilitiesDetachedEffect(r, a, cs);
  }

  /**
   * What the tree still has of a capability the device does not hold: a section that was left over before, or one that
   * this update's rule output asked to write. A capability that was held and is not asked for any more is gone from it.
   */
  ghost predicate Forgets(m: Mapping, a: Address, before: State, after: State, endpoints: seq<set<string>>) {
    && a in before.rows && a in after.rows && OnlySections(a, before.section, after.section)
    && forall c <- Sections(after, a) | c !in after.rows[a].held ::
         (c in Sections(before, a) && c !in before.rows[a].held) || AskedFor(m, endpoints, c)
  }

  lemma FinishForgets(m: Mapping, s: State, r: Run, a: Address, endpoints: seq<set<string>>, orders: seq<seq<string>>,
                      create: string -> Option<Implementation>, outcome: (nat, string) -> Outcome,
                      detached: seq<Category>)
    requires Inv(m, s) && WellMapped(m) && a in s.rows && Faithful(m, create) && Delivers(orders, endpoints)
    requires r == RunAll(m, a, Before(s), AllAttempts(orders, create, outcome))
    ensures Forgets(m, a, s, CapabilitiesDetached(r.state, a, detached), endpoints)
  {
    var attempts := AllAttempts(orders, create, outcome);
    AttemptsLegal(m, orders, create, outcome);
    RunLeaves(m, s, a, attempts);
    CapabilitiesDetachedLeaves(m, s, r.state, a, detached, attempts);
    forall c | Tried(m, attempts, c) ensures AskedFor(m, endpoints, c) {
      TriedIsAskedFor(m, endpoints, orders, create, outcome, c);
    }
  }

  lemma FinishEffect(m: Mapping, s: State, r: Run, a: Address, attempts: seq<Attempt>, detached: seq<Category>)
    requires Inv(m, s) && WellMapped(m) && a in s.rows && AllFactoryMade(m, attempts)
    requires r == RunAll(m, a, Before(s), attempts)
    requires Distinct(detached) && Elements(detached) == r.state.rows[a].held.Keys - r.active
    ensures var t, p := CapabilitiesDetached(r.state, a, detached), Updated(m, s.rows[a].held, attempts);
            && Inv(m, t) && OnlyDevice(a, s, t)
            && t.rows[a].held == p.held && Unattached(r.status, detached) == p.status
  {
    RunInv(m, s, a, attempts);
    RunFollows(m, s, a, attempts);
    CapabilitiesDetachedInv(m, r.state, a, detached);
    DetachedEffect(s, r.state, a, detached);
    UnattachedIs(r.status, detached);
  }

  /** Reconciles the device's capabilities with its endpoints' rule output; `orders` are the map iterations' choices. */
  method UpdateCapabilities(z: Gateway, d: Device, endpoints: seq<set<string>>,
                            create: string -> Option<Implementation>,
                            outcome: (nat, string) -> Outcome)
    returns (results: map<Category, bool>, ghost orders: seq<seq<string>>)
    requires z.Valid() && z.Live(d) && Faithful(z.mapping, create)
    modifies z`section, z`log, z`rows, d`capabilities
    ensures z.Valid() && OnlyDevice(d.address, old(z.State()), z.State()) && Delivers(orders, endpoints)
    ensures var p := Updated(z.mapping, old(z.rows[d.address].held), AllAttempts(orders, create, outcome));
            z.rows[d.address].held == p.held && results == p.status
    ensures Forgets(z.mapping, d.address, old(z.State()), z.State(), endpoints)
  {
    ghost var s := z.State();
    var active, status;
    active, status, orders := EnumerateEndpoints(z, d, endpoints, create, outcome);
    ghost var r := Run(z.State(), active, status);
    RunOrdersIsRunAll(z.mapping, d.address, Before(s), orders, create, outcome);
    ghost var detached;
    results, detached := DetachRedundant(z, d, active, status);
    AttemptsLegal(z.mapping, orders, create, outcome);
    FinishEffect(z.mapping, s, r, d.address, AllAttempts(orders, create, outcome), detached);
    FinishForgets(z.mapping, s, r, d.address, endpoints, orders, create, outcome, detached);
  }
}
