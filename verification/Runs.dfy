/** Whole runs of the gateway, from one start to the next. */
module Runs {
  import opened Wrappers
  import opened Keys
  import opened Factory
  import opened EventLog
  import opened Persistence
  import opened Sequences
  import opened CapabilityPlan
  import opened GatewayState
  import opened NodeUpdate
  import opened Table
  import opened Enumeration
  import opened ProviderLoop
  import opened ProviderLoad
  import opened KeyEncoding

  /** One step of a run; an enumeration carries what the node, the rules and the capabilities answer. */
  datatype Step =
    | NodeJoin(node: Ieee)
    | NodeLeave(node: Ieee)
    | Enumeration(node: Ieee, answer: Option<Inventory>, rules: Byte -> Option<Capabilities>,
                  outcome: (Byte, string, Settings) -> Outcome)

  /**
   * What a run delivers at any time: every event fitted the log before it, the log shows just the devices in the table
   * with their capabilities and the two built-in ones, and the tree agrees with the table both ways.
   */
  ghost predicate Consistent(s: State) {
    && InOrder(s.log)
    && (forall a :: Known(s.log, a) <==> a in s.rows)
    && (forall a, c :: Shows(s.log, a, c) <==>
                         a in s.rows && (c in s.rows[a].held || c == EnumerateDevice || c == DeviceRemoval))
    && s.section.Keys == s.nodes
    && (forall a :: a in s.rows <==> DeviceAt(s.section, a).Some?)
    && (forall a <- s.rows ::
          DeviceAt(s.section, a).value.uniqueId == if s.rows[a].isSet then Some(s.rows[a].id) else None)
    && (forall a <- s.rows, c <- s.rows[a].held ::
          c in DeviceAt(s.section, a).value.capability
          && DeviceAt(s.section, a).value.capability[c].implementation == Some(s.rows[a].held[c].name))
  }

  lemma LogConsistent(rows: Rows, log: seq<Event>)
    requires Logged(rows, log)
    ensures InOrder(log) && forall a :: Known(log, a) <==> a in rows
    ensures forall a, c :: Shows(log, a, c) <==>
                             a in rows && (c in rows[a].held || c == EnumerateDevice || c == DeviceRemoval)
  {
    CoherentInOrder(log);
    forall a ensures Known(log, a) <==> a in rows { ReplayMeans(log, a, EnumerateDevice); }
    forall a, c ensures Shows(log, a, c) <==>
                          a in rows && (c in rows[a].held || c == EnumerateDevice || c == DeviceRemoval) {
      ReplayMeans(log, a, c);
    }
  }

  lemma InvConsistent(m: Mapping, s: State)
    requires Inv(m, s)
    ensures Consistent(s)
  {
    LogConsistent(s.rows, s.log);
    forall a <- s.rows ensures SectionMatches(m, s.rows[a], DeviceAt(s.section, a).value) { }
  }

  /** Every device in the table was there before or is new. */
  twostate predicate OldOrNew(z: Gateway, before: map<Address, Device>)
    reads z
  {
    forall a <- z.device :: z.device[a] in before.Values || fresh(z.device[a])
  }

  /** What the step does to the gateway. */
  ghost predicate Took(m: Mapping, before: State, after: State, step: Step) {
    match step
    case NodeJoin(n) => if n in before.nodes then after == before else Joined(n, before, after)
    case NodeLeave(n) => if n in before.nodes then Left(n, before, after) else after == before
    case Enumeration(n, answer, rules, outcome) =>
      if n in before.nodes then EnumerationTook(m, n, before, after, Interrogated(answer, rules), outcome)
      else after == before
  }

  /**
   * Without an inventory nothing changes; with one the node is enumerated, unless endpoint 0 meets a device
   * without an id.
   */
  ghost predicate EnumerationTook(m: Mapping, n: Ieee, before: State, after: State, inv: Option<Inventory>,
                                  outcome: (Byte, string, Settings) -> Outcome) {
    && after.nodes == before.nodes && OthersKept(n, before.rows, after.rows)
    && (inv.None? ==> after == before)
    && (inv.Some? && !(0 in inv.value && UnsetDevice(RosterOf(before.rows, n))) ==>
          Enumerated(m, n, before.rows, after.rows, inv.value, outcome) && TreeForgets(m, n, before, after, inv.value))
  }

  method TakeStep(z: Gateway, step: Step, create: string -> Option<Implementation>)
    requires z.Valid() && Faithful(z.mapping, create)
    modifies z`node, z`section, z`log, z`device, z`rows, z.device.Values
    ensures z.Valid() && OldOrNew(z, old(z.device)) && Took(z.mapping, old(z.State()), z.State(), step)
  {
    match step {
      case NodeJoin(n) =>
        var created := ReceiveNodeJoin(z, n);
      case NodeLeave(n) =>
        var known := ReceiveNodeLeave(z, n);
      case Enumeration(n, answer, rules, outcome) =>
        if n in z.node { Enumerate(z, n, answer, rules, create, outcome); }
    }
  }

  /** The states that the steps lead through, each consistent and each the last one's after its step. */
  ghost predicate Ran(m: Mapping, trace: seq<State>, steps: seq<Step>) {
    && |trace| == |steps| + 1
    && (forall k | 0 <= k < |steps| :: Took(m, trace[k], trace[k + 1], steps[k]))
    && (forall k | 0 <= k < |trace| :: Consistent(trace[k]))
  }

  /** So far, from one state to another. */
  ghost predicate RanTo(m: Mapping, start: State, trace: seq<State>, steps: seq<Step>, s: State) {
    Ran(m, trace, steps) && trace[0] == start && trace[|steps|] == s
  }

  lemma RanNone(m: Mapping, s: State)
    requires Inv(m, s)
    ensures RanTo(m, s, [s], [], s)
  {
    InvConsistent(m, s);
  }

  lemma RanMore(m: Mapping, start: State, trace: seq<State>, steps: seq<Step>, k: nat, s: State, t: State)
    requires k < |steps| && RanTo(m, start, trace, steps[..k], s) && Took(m, s, t, steps[k]) && Consistent(t)
    ensures RanTo(m, start, trace + [t], steps[..k + 1], t)
  {
    var more, upTo := trace + [t], steps[..k + 1];
    forall l | 0 <= l < |upTo| ensures Took(m, more[l], more[l + 1], upTo[l]) {
      if l < k { assert upTo[l] == steps[..k][l] && more[l + 1] == trace[l + 1]; }
    }
  }

  method RunStep(z: Gateway, steps: seq<Step>, k: nat, create: string -> Option<Implementation>,
                 ghost start: State, ghost trace: seq<State>)
    returns (ghost more: seq<State>)
    requires z.Valid() && Faithful(z.mapping, create)
    requires k < |steps| && RanTo(z.mapping, start, trace, steps[..k], z.State())
    modifies z`node, z`section, z`log, z`device, z`rows, z.device.Values
    ensures z.Valid() && OldOrNew(z, old(z.device)) && RanTo(z.mapping, start, more, steps[..k + 1], z.State())
  {
    ghost var before := z.State();
    TakeStep(z, steps[k], create);
    InvConsistent(z.mapping, z.State());
    RanMore(z.mapping, start, trace, steps, k, before, z.State());
    more := trace + [z.State()];
  }

  /** Any sequence of steps is carried out, and at every point the table, the log and the tree agree. */
  method Run(z: Gateway, steps: seq<Step>, create: string -> Option<Implementation>) returns (ghost trace: seq<State>)
    requires z.Valid() && Faithful(z.mapping, create)
    modifies z`node, z`section, z`log, z`device, z`rows, z.device.Values
    ensures z.Valid() && OldOrNew(z, old(z.device)) && RanTo(z.mapping, old(z.State()), trace, steps, z.State())
  {
    ghost var start := z.State();
    trace := [start];
    RanNone(z.mapping, start);
    assert steps[..0] == [];
    for k := 0 to |steps|
      invariant z.Valid() && OldOrNew(z, old(z.device)) && RanTo(z.mapping, start, trace, steps[..k], z.State())
    {
      trace := RunStep(z, steps, k, create, start, trace);
    }
    Whole(steps);
  }

  /** Stopping and starting again: the new table has the old nodes, devices and ids, and the capabilities that load. */
  method Restart(z: Gateway, loads: Loads, create: string -> Option<Implementation>) returns (w: Gateway)
    requires z.Valid() && Faithful(z.mapping, create)
    ensures fresh(w) && w.Valid() && Rebuilt(z.State(), loads, w.State())
  {
    InvSane(z.mapping, z.State());
    w := new Gateway(z.mapping, z.section);
    ProviderLoad.ProviderLoad(w, create, loads);
    LoadRebuilds(z.mapping, z.State(), loads, w.State());
  }

  /** The same from the tree as it is stored, under string keys. */
  method RestartFromTree(z: Gateway, t: Tree, loads: Loads, create: string -> Option<Implementation>)
    returns (w: Gateway)
    requires z.Valid() && Faithful(z.mapping, create) && Carries(t, z.section)
    ensures fresh(w) && w.Valid() && Rebuilt(z.State(), loads, w.State()) && Carries(t, w.section)
  {
    InvSane(z.mapping, z.State());
    var section := ReadTree(t, z.section);
    w := new Gateway(z.mapping, section);
    ProviderLoad.ProviderLoad(w, create, loads);
    LoadRebuilds(z.mapping, z.State(), loads, w.State());
  }

  /** What happens from one start of the process to the next. */
  datatype Life = Life(loads: Loads, steps: seq<Step>)

  /** The gateway loads the tree and then takes its steps. */
  ghost predicate Lived(m: Mapping, section: Store, life: Life, trace: seq<State>) {
    Ran(m, trace, life.steps) && Complete(m, section, life.loads, trace[0])
  }

  method Live(mapping: Mapping, section: Store, life: Life, create: string -> Option<Implementation>)
    returns (z: Gateway, ghost trace: seq<State>)
    requires WellMapped(mapping) && Faithful(mapping, create) && Sane(mapping, section)
    ensures z.Valid() && z.mapping == mapping && Sane(mapping, z.section)
    ensures Lived(mapping, section, life, trace) && trace[|life.steps|] == z.State()
  {
    z := new Gateway(mapping, section);
    ProviderLoad.ProviderLoad(z, create, life.loads);
    trace := Run(z, life.steps, create);
    InvSane(mapping, z.State());
  }

  /** Each life starts from the tree that the one before left, the first from an empty one. */
  ghost predicate AllLived(m: Mapping, lives: seq<Life>, sections: seq<Store>, traces: seq<seq<State>>) {
    && |sections| == |lives| + 1 && |traces| == |lives| && sections[0] == map[]
    && forall k | 0 <= k < |lives| ::
         && Lived(m, sections[k], lives[k], traces[k])
         && sections[k + 1] == traces[k][|lives[k].steps|].section
  }

  /** Any number of restarts, the first from an empty tree. */
  method Lives(mapping: Mapping, lives: seq<Life>, create: string -> Option<Implementation>)
    returns (section: Store, ghost sections: seq<Store>, ghost traces: seq<seq<State>>)
    requires WellMapped(mapping) && Faithful(mapping, create)
    ensures AllLived(mapping, lives, sections, traces) && sections[|lives|] == section && Sane(mapping, section)
  {
    section := map[];
    sections, traces := [section], [];
    for k := 0 to |lives|
      invariant AllLived(mapping, lives[..k], sections, traces) && sections[k] == section && Sane(mapping, section)
    {
      var z;
      ghost var trace;
      z, trace := Live(mapping, section, lives[k], create);
      section := z.section;
      LivedMore(mapping, lives, k, sections, traces, trace);
      sections, traces := sections + [section], traces + [trace];
    }
    Whole(lives);
  }

  lemma LivedMore(m: Mapping, lives: seq<Life>, k: nat, sections: seq<Store>, traces: seq<seq<State>>,
                  trace: seq<State>)
    requires k < |lives| && AllLived(m, lives[..k], sections, traces) && Lived(m, sections[k], lives[k], trace)
    ensures AllLived(m, lives[..k + 1], sections + [trace[|lives[k].steps|].section], traces + [trace])
  {
  }

  /** The gateway as it is put together, with the factory's own implementations. */
  method Serve(lives: seq<Life>) returns (section: Store, ghost sections: seq<Store>, ghost traces: seq<seq<State>>)
    ensures AllLived(MAPPING, lives, sections, traces) && sections[|lives|] == section && Sane(MAPPING, section)
  {
    FactoryIsFaithful();
    section, sections, traces := Lives(MAPPING, lives, Create);
  }

  // ---- What is forgotten stays forgotten ----

  lemma ForgottenNotLoaded(m: Mapping, n: Ieee, before: State, after: State, inv: Inventory, loads: Loads, again: State,
                           a: Address, c: Category)
    requires TreeForgets(m, n, before, after, inv) && Rebuilt(after, loads, again)
    requires a.ieee == n && a in before.rows && a in after.rows && c in before.rows[a].held && c !in after.rows[a].held
    requires !AskedOn(m, inv, after.rows[a].id, c)
    ensures c !in Sections(after, a) && c !in again.rows[a].held
  {
    assert RowRebuilt(DeviceAt(after.section, a).value, a, loads, after.rows[a], again.rows[a]);
  }

  /**
   * A capability that an enumeration took away, and that the rules no longer ask for, does not come back with a
   * restart.
   */
  method EnumerateAndRestart(z: Gateway, n: Ieee, answer: Option<Inventory>, rules: Byte -> Option<Capabilities>,
                             create: string -> Option<Implementation>, outcome: (Byte, string, Settings) -> Outcome,
                             loads: Loads)
    returns (w: Gateway)
    requires z.Valid() && n in z.node && Faithful(z.mapping, create)
    modifies z`section, z`log, z`device, z`rows, z.device.Values
    ensures z.Valid() && w.Valid() && Rebuilt(z.State(), loads, w.State())
    ensures var inv := Interrogated(answer, rules);
            inv.Some? && !(0 in inv.value && UnsetDevice(RosterOf(old(z.rows), n))) ==>
              forall a <- z.rows, c | a.ieee == n && a in old(z.rows) && c in old(z.rows)[a].held &&
                                      c !in z.rows[a].held && !AskedOn(z.mapping, inv.value, z.rows[a].id, c) ::
                c !in w.rows[a].held
  {
    ghost var before := z.State();
    Enumerate(z, n, answer, rules, create, outcome);
    ghost var after := z.State();
    w := Restart(z, loads, create);
    ghost var inv := Interrogated(answer, rules);
    if inv.Some? && !(0 in inv.value && UnsetDevice(RosterOf(before.rows, n))) {
      forall a <- after.rows, c | a.ieee == n && a in before.rows && c in before.rows[a].held &&
                                  c !in after.rows[a].held && !AskedOn(z.mapping, inv.value, after.rows[a].id, c)
        ensures c !in w.rows[a].held
      {
        ForgottenNotLoaded(z.mapping, n, before, after, inv.value, loads, w.State(), a, c);
      }
    }
  }
}
