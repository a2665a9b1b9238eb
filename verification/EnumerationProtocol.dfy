/**
 * One node's enumerations, its join handler and removals side by side (startEnumeration, updateNodeTable,
 * createNextDevice).
 */
module EnumerationProtocol {
  import opened Wrappers
  import opened Keys
  import opened Roster

  /** A device object, told apart by its serial number, with its unique id. */
  datatype Device = Device(serial: nat, entry: Entry)

  type Table = map<Byte, Device>

  /** A goroutine's reference to a device object that was at this sub-identifier. */
  datatype Ref = Ref(sub: Byte, serial: nat)

  /** `createNextDevice` reads a free sub-identifier in one critical section and writes it in another. */
  datatype JoinHandler = Joining | JoinChose(sub: Byte) | JoinWrote | JoinDone

  /**
   * An enumeration's goroutine: spawned; at work outside the node table; holding the list of devices without an id;
   * giving ids to devices, of which `todo` is left; between the two critical sections of a creation; about to give the
   * created device its id; or past its last statement and about to release the semaphore.
   */
  datatype Enumeration =
    | Spawned
    | Working
    | Listed(ids: seq<Byte>, unset: seq<Ref>)
    | Assigning(todo: seq<Byte>, mapped: set<Byte>, unset: seq<Ref>)
    | Chose(todo: seq<Byte>, mapped: set<Byte>, sub: Byte)
    | Wrote(todo: seq<Byte>, mapped: set<Byte>, device: Ref)
    | Ending

  /**
   * The node: its devices, the semaphore, the state flag and the goroutines; `seen` is whether users ever had a
   * device.
   */
  datatype Node = Node(device: Table, made: nat, seen: bool, acquired: bool, enumerating: bool,
                       join: JoinHandler, running: map<nat, Enumeration>)

  datatype Step =
    | JoinChoose | JoinWrite | JoinStart(g: nat)
    | Start(g: nat)
    | Begin(g: nat) | ListUnset(g: nat, ids: seq<Byte>, unset: seq<Ref>) | Match(g: nat)
    | AssignNext(g: nat) | Choose(g: nat) | Write(g: nat) | SetId(g: nat) | Finish(g: nat)
    | End(g: nat) | Release(g: nat)
    | Remove(sub: Byte)

  /** A node that is just joining. */
  function Initial(): Node {
    Node(map[], 0, false, false, false, Joining, map[])
  }

  /** A node rebuilt from the persisted tree, or one whose join is long over. */
  function Settled(device: Table, made: nat): Node {
    Node(device, made, true, false, false, JoinDone, map[])
  }

  function RosterOf(t: Table): Devices {
    map s <- t :: t[s].entry
  }

  /** The devices without an id, in the order some map iteration delivers them. */
  ghost predicate ListsUnset(t: Table, unset: seq<Ref>) {
    forall r :: r in unset <==> r.sub in t && t[r.sub].serial == r.serial && !t[r.sub].entry.isSet
  }

  /** What must hold for a step to be possible; `g` names the goroutine that a start would spawn. */
  ghost predicate Enabled(n: Node, s: Step) {
    match s
    case JoinChoose => n.join.Joining?
    case JoinWrite => n.join.JoinChose?
    case JoinStart(g) => n.join.JoinWrote? && g !in n.running
    case Start(g) => n.seen && g !in n.running
    case Remove(sub) => true
    case _ => s.g in n.running && CanMove(n.device, n.running[s.g], s)
  }

  ghost predicate CanMove(t: Table, e: Enumeration, s: Step) {
    match s
    case Begin(_) => e.Spawned?
    case ListUnset(_, _, unset) => e.Working? && ListsUnset(t, unset)
    case Match(_) => e.Listed?
    case AssignNext(_) => e.Assigning? && e.todo != [] && (e.todo[0] in e.mapped || e.unset != [])
    case Choose(_) => e.Assigning? && e.todo != [] && e.todo[0] !in e.mapped && e.unset == []
    case Write(_) => e.Chose?
    case SetId(_) => e.Wrote? && e.todo != []
    case Finish(_) => e.Assigning? && e.todo == []
    case End(_) => e.Working?
    case Release(_) => e.Ending?
    case _ => false
  }

  /** `startEnumeration`: refused while the semaphore is held. */
  function Started(n: Node, g: nat): Node {
    if n.acquired then n else n.(acquired := true, running := n.running[g := Spawned])
  }

  /** `createSpecificDevice`: a device without an id is in the table, and from then on users may hold it. */
  function Written(n: Node, sub: Byte): Node {
    n.(device := n.device[sub := Device(n.made, Entry(0, false))], made := n.made + 1, seen := true)
  }

  /** `setDeviceUniqueId` on a device object, which may have left the table meanwhile. */
  function IdGiven(t: Table, r: Ref, i: Byte): Table {
    if r.sub in t && t[r.sub].serial == r.serial then t[r.sub := Device(r.serial, Entry(i, true))] else t
  }

  /** The ids that some device carries; one without an id reads as carrying 0. */
  function Matching(t: Table, ids: seq<Byte>): set<Byte> {
    set i | i in ids && exists s <- t :: t[s].entry.id == i
  }

  /** Where the goroutine is after its step. */
  function Moved(n: Node, e: Enumeration, s: Step): Enumeration
    requires CanMove(n.device, e, s)
  {
    match s
    case Begin(_) => Working
    case ListUnset(_, ids, unset) => Listed(ids, unset)
    case Match(_) => Assigning(e.ids, Matching(n.device, e.ids), e.unset)
    case AssignNext(_) =>
      if e.todo[0] in e.mapped then Assigning(e.todo[1..], e.mapped, e.unset)
      else Assigning(e.todo[1..], e.mapped + {e.todo[0]}, e.unset[1..])
    case Choose(_) => Chose(e.todo, e.mapped, NextSubIdentifier(n.device.Keys))
    case Write(_) => Wrote(e.todo, e.mapped, Ref(e.sub, n.made))
    case SetId(_) => Assigning(e.todo[1..], e.mapped + {e.todo[0]}, [])
    case Finish(_) => Working
    case End(_) => Ending
    case Release(_) => e
  }

  /** What the goroutine's step does to the node, apart from its own place. */
  function Acted(n: Node, e: Enumeration, s: Step): Node
    requires CanMove(n.device, e, s)
  {
    match s
    case Begin(_) => n.(enumerating := true)
    case AssignNext(_) =>
      if e.todo[0] in e.mapped then n else n.(device := IdGiven(n.device, e.unset[0], e.todo[0]))
    case Write(_) => Written(n, e.sub)
    case SetId(_) => n.(device := IdGiven(n.device, e.device, e.todo[0]))
    case End(_) => n.(enumerating := false)
    case _ => n
  }

  ghost function After(n: Node, s: Step): Node
    requires Enabled(n, s)
  {
    match s
    case JoinChoose => n.(join := JoinChose(NextSubIdentifier(n.device.Keys)))
    case JoinWrite => Written(n, n.join.sub).(join := JoinWrote)
    case JoinStart(g) => Started(n, g).(join := JoinDone)
    case Start(g) => Started(n, g)
    case Remove(sub) => n.(device := n.device - {sub})
    case Release(g) => n.(acquired := false, running := n.running - {g})
    case _ => Acted(n, n.running[s.g], s).(running := n.running[s.g := Moved(n, n.running[s.g], s)])
  }

  /** Where an interleaving leads, if each of its steps was possible. */
  ghost function Run(start: Node, steps: seq<Step>): Option<Node>
    decreases |steps|
  {
    if steps == [] then Some(start) else
      var n, s := Run(start, steps[..|steps| - 1]), steps[|steps| - 1];
      if n.Some? && Enabled(n.value, s) then Some(After(n.value, s)) else None
  }

  // ---- What every interleaving keeps ----

  /** The semaphore is held exactly while there is a goroutine, and there is never more than one. */
  ghost predicate Exclusive(n: Node) {
    && (forall g <- n.running, h <- n.running :: g == h)
    && (n.acquired <==> n.running != map[])
  }

  predicate Active(e: Enumeration) {
    !e.Spawned? && !e.Ending?
  }

  /** The flag is set exactly from an enumeration's first statement to its last. */
  ghost predicate FlagHonest(n: Node) {
    n.enumerating <==> exists g <- n.running :: Active(n.running[g])
  }

  /** Until the join handler has written its device nobody can have started anything. */
  ghost predicate JoinFirst(n: Node) {
    n.join.Joining? || n.join.JoinChose? ==> !n.seen && n.device == map[] && n.running == map[]
  }

  /** Every device without an id is among these. */
  ghost predicate AllListed(t: Table, unset: seq<Ref>) {
    forall s <- t | !t[s].entry.isSet :: Ref(s, t[s].serial) in unset
  }

  /** An id that is still to be given and is not mapped is no device's. */
  ghost predicate AllMapped(t: Table, todo: seq<Byte>, mapped: set<Byte>) {
    forall s <- t | t[s].entry.isSet && t[s].entry.id in todo :: t[s].entry.id in mapped
  }

  /** What a goroutine at its place relies on. */
  ghost predicate Relies(t: Table, e: Enumeration) {
    match e
    case Listed(_, unset) => AllListed(t, unset)
    case Assigning(todo, mapped, unset) => AllListed(t, unset) && AllMapped(t, todo, mapped)
    case Chose(todo, mapped, sub) =>
      AllListed(t, []) && AllMapped(t, todo, mapped) && todo != [] && todo[0] !in mapped && sub !in t
    case Wrote(todo, mapped, device) =>
      AllListed(t, [device]) && AllMapped(t, todo, mapped) && todo != [] && todo[0] !in mapped
    case _ => true
  }

  ghost predicate Inv(n: Node) {
    && Exclusive(n) && FlagHonest(n) && JoinFirst(n) && Sound(RosterOf(n.device))
    && (forall g <- n.running :: Relies(n.device, n.running[g]))
  }

  lemma InitialInv()
    ensures Inv(Initial())
  {
  }

  /** A node that was loaded, with any devices a run can leave, is a start too. */
  lemma SettledInv(device: Table, made: nat)
    requires Sound(RosterOf(device))
    ensures Inv(Settled(device, made))
  {
  }

  // ---- The table under the goroutine's steps ----

  /**
   * Only this goroutine can create, so when it does there is room: all devices have distinct ids other than the
   * one to give.
   */
  lemma RoomToCreate(t: Table, todo: seq<Byte>, mapped: set<Byte>)
    requires Sound(RosterOf(t)) && AllListed(t, []) && AllMapped(t, todo, mapped) && todo != [] && todo[0] !in mapped
    ensures |t.Keys| < 256 && NextSubIdentifier(t.Keys) !in t
  {
    var r := RosterOf(t);
    assert r.Keys == t.Keys;
    forall s <- r ensures r[s].isSet && r[s].id != todo[0] { assert t[s].entry == r[s]; }
    RoomForOne(r, todo[0]);
  }

  /** Giving an unmapped id to an object keeps ids distinct, and settles that object and that id. */
  lemma IdGivenKeeps(t: Table, r: Ref, rest: seq<Ref>, todo: seq<Byte>, mapped: set<Byte>)
    requires Sound(RosterOf(t)) && todo != [] && todo[0] !in mapped
    requires AllListed(t, [r] + rest) && AllMapped(t, todo, mapped)
    ensures var u := IdGiven(t, r, todo[0]);
            Sound(RosterOf(u)) && AllListed(u, rest) && AllMapped(u, todo[1..], mapped + {todo[0]})
  {
    IdGivenSound(t, r, todo[0]);
    assert forall i <- todo[1..] :: i in todo;
  }

  lemma IdGivenSound(t: Table, r: Ref, i: Byte)
    requires Sound(RosterOf(t)) && forall s <- t | t[s].entry.isSet :: t[s].entry.id != i
    ensures Sound(RosterOf(IdGiven(t, r, i)))
  {
    var u := IdGiven(t, r, i);
    assert forall s <- u :: s in t && RosterOf(t)[s] == t[s].entry;
  }

  lemma WrittenSound(t: Table, sub: Byte, d: Device)
    requires Sound(RosterOf(t)) && sub !in t && d.entry == Entry(0, false)
    ensures Sound(RosterOf(t[sub := d]))
  {
    assert forall s <- t :: RosterOf(t)[s] == t[s].entry;
  }

  lemma RemovedSound(t: Table, sub: Byte)
    requires Sound(RosterOf(t))
    ensures Sound(RosterOf(t - {sub}))
  {
    assert forall s <- t - {sub} :: RosterOf(t - {sub})[s] == RosterOf(t)[s];
  }

  lemma AssignNextKeeps(t: Table, e: Enumeration)
    requires e.Assigning? && e.todo != [] && (e.todo[0] in e.mapped || e.unset != [])
    requires Relies(t, e) && Sound(RosterOf(t))
    ensures e.todo[0] in e.mapped ==> Relies(t, Assigning(e.todo[1..], e.mapped, e.unset))
    ensures e.todo[0] !in e.mapped ==>
              var u := IdGiven(t, e.unset[0], e.todo[0]);
              Sound(RosterOf(u)) && Relies(u, Assigning(e.todo[1..], e.mapped + {e.todo[0]}, e.unset[1..]))
  {
    if e.todo[0] in e.mapped {
      assert forall i <- e.todo[1..] :: i in e.todo;
    } else {
      assert e.unset == [e.unset[0]] + e.unset[1..];
      IdGivenKeeps(t, e.unset[0], e.unset[1..], e.todo, e.mapped);
    }
  }

  /** A goroutine's own step leaves it relying on what holds. */
  lemma ActedKeeps(n: Node, e: Enumeration, s: Step)
    requires CanMove(n.device, e, s) && !s.Release? && Relies(n.device, e) && Sound(RosterOf(n.device))
    ensures var t := Acted(n, e, s).device; Sound(RosterOf(t)) && Relies(t, Moved(n, e, s))
  {
    match s
    case AssignNext(_) => AssignNextKeeps(n.device, e);
    case Choose(_) => RoomToCreate(n.device, e.todo, e.mapped);
    case Write(_) => WrittenSound(n.device, e.sub, Device(n.made, Entry(0, false)));
    case SetId(_) =>
      assert [e.device] + [] == [e.device];
      IdGivenKeeps(n.device, e.device, [], e.todo, e.mapped);
    case _ =>
  }

  /** The goroutine moves on, and the flag with it. */
  lemma MoveKeeps(n: Node, g: nat, s: Step)
    requires Inv(n) && g in n.running && CanMove(n.device, n.running[g], s) && !s.Release?
    requires Sound(RosterOf(Acted(n, n.running[g], s).device))
    requires Relies(Acted(n, n.running[g], s).device, Moved(n, n.running[g], s))
    ensures Inv(Acted(n, n.running[g], s).(running := n.running[g := Moved(n, n.running[g], s)]))
  {
    var e := n.running[g];
    var n' := Acted(n, e, s).(running := n.running[g := Moved(n, e, s)]);
    assert forall h <- n.running :: h == g;
    assert n'.running == map[g := Moved(n, e, s)];
    assert Active(e) <==> n.enumerating;
    assert n'.running[g] == Moved(n, e, s);
  }

  lemma ReleaseKeeps(n: Node, g: nat)
    requires Inv(n) && g in n.running && n.running[g].Ending?
    ensures Inv(After(n, Release(g)))
  {
    assert n.running - {g} == map[];
    assert forall h <- n.running :: h == g;
  }

  lemma StartKeeps(n: Node, g: nat)
    requires Inv(n) && g !in n.running && !n.join.Joining? && !n.join.JoinChose?
    ensures Inv(Started(n, g)) && Inv(Started(n, g).(join := JoinDone))
  {
  }

  lemma GoroutineKeeps(n: Node, s: Step)
    requires Inv(n) && Enabled(n, s)
    requires !s.JoinChoose? && !s.JoinWrite? && !s.JoinStart? && !s.Start? && !s.Remove? && !s.Release?
    ensures Inv(After(n, s))
  {
    ActedKeeps(n, n.running[s.g], s);
    MoveKeeps(n, s.g, s);
  }

  lemma StepKeeps(n: Node, s: Step)
    requires Inv(n) && Enabled(n, s)
    ensures Inv(After(n, s))
  {
    match s
    case JoinChoose =>
    case JoinWrite => WrittenSound(n.device, n.join.sub, Device(n.made, Entry(0, false)));
    case JoinStart(g) => StartKeeps(n, g);
    case Start(g) => StartKeeps(n, g);
    case Remove(sub) => RemovedSound(n.device, sub);
    case Release(g) => ReleaseKeeps(n, g);
    case _ => GoroutineKeeps(n, s);
  }

  lemma {:induction false} RunKeeps(start: Node, steps: seq<Step>)
    requires Inv(start) && Run(start, steps).Some?
    ensures Inv(Run(start, steps).value)
    decreases |steps|
  {
    if steps != [] {
      var init := steps[..|steps| - 1];
      RunKeeps(start, init);
      StepKeeps(Run(start, init).value, steps[|steps| - 1]);
    }
  }

  // ---- Main results ----

  /** The sub-identifier that the step writes a new device at. */
  function Writing(n: Node, s: Step): Option<Byte> {
    match s
    case JoinWrite => if n.join.JoinChose? then Some(n.join.sub) else None
    case Write(g) => if g in n.running && n.running[g].Chose? then Some(n.running[g].sub) else None
    case _ => None
  }

  lemma StepOverwritesNothing(n: Node, s: Step)
    requires Inv(n) && Enabled(n, s)
    ensures Writing(n, s).Some? ==> Writing(n, s).value !in n.device
    ensures forall sub <- n.device | sub in After(n, s).device :: After(n, s).device[sub].serial == n.device[sub].serial
  {
  }

  /**
   * In every interleaving, what the first critical section chose is still free in the second: no device is ever
   * overwritten.
   */
  lemma {:induction false} NoDeviceOverwritten(start: Node, steps: seq<Step>, s: Step)
    requires Inv(start) && Run(start, steps).Some? && Enabled(Run(start, steps).value, s)
    ensures var n := Run(start, steps).value;
            && (Writing(n, s).Some? ==> Writing(n, s).value !in n.device)
            && forall sub <- n.device | sub in After(n, s).device ::
                 After(n, s).device[sub].serial == n.device[sub].serial
  {
    RunKeeps(start, steps);
    StepOverwritesNothing(Run(start, steps).value, s);
  }

  /**
   * In every interleaving, a reconciliation that comes to make a device has room for it, whatever was removed
   * meanwhile.
   */
  lemma {:induction false} ReconcileHasRoom(start: Node, steps: seq<Step>, g: nat)
    requires Inv(start) && Run(start, steps).Some? && Enabled(Run(start, steps).value, Choose(g))
    ensures var n := Run(start, steps).value;
            |n.device.Keys| < 256 && NextSubIdentifier(n.device.Keys) !in n.device
  {
    RunKeeps(start, steps);
    var n := Run(start, steps).value;
    RoomToCreate(n.device, n.running[g].todo, n.running[g].mapped);
  }

  /** The join handler always has room and takes sub-identifier 0. */
  lemma {:induction false} JoinTakesZero(start: Node, steps: seq<Step>)
    requires Inv(start) && Run(start, steps).Some? && Enabled(Run(start, steps).value, JoinChoose)
    ensures After(Run(start, steps).value, JoinChoose).join == JoinChose(0)
  {
    RunKeeps(start, steps);
    AllocationUnique({}, 0);
    assert Run(start, steps).value.device.Keys == {};
  }

  /** A start is refused exactly while another enumeration is between its acquire and its release. */
  lemma {:induction false} RefusedIff(start: Node, steps: seq<Step>, g: nat)
    requires Inv(start) && Run(start, steps).Some? && Enabled(Run(start, steps).value, Start(g))
    ensures var n := Run(start, steps).value;
            && (After(n, Start(g)) == n <==> exists h :: h in n.running)
            && (After(n, Start(g)) != n ==> After(n, Start(g)).running == map[g := Spawned])
  {
    RunKeeps(start, steps);
    var n := Run(start, steps).value;
    if n.acquired { var h :| h in n.running; } else { assert g in After(n, Start(g)).running; }
  }

  /** The reported state is true only during an enumeration, and at most one is under way. */
  lemma {:induction false} StateHonest(start: Node, steps: seq<Step>)
    requires Inv(start) && Run(start, steps).Some?
    ensures var n := Run(start, steps).value;
            && (n.enumerating ==> n.acquired)
            && (n.enumerating <==> exists g <- n.running :: Active(n.running[g]))
            && forall g <- n.running, h <- n.running :: g == h
  {
    RunKeeps(start, steps);
  }
}
