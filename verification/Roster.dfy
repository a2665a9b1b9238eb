/** Reconciling a node's devices with an inventory, on values: which device keeps, gets or loses which id. */
module Roster {
  import opened Keys
  import opened Sequences

  /** A device's unique id and whether it has been given one; a device without one reads as id 0. */
  datatype Entry = Entry(id: int, isSet: bool)

  /** The devices of one node by sub-identifier. */
  type Devices = map<Byte, Entry>

  /** `isLeast`: the sub-identifier the allocator picks, with 255 as the fallback. */
  ghost predicate Allocates(used: set<Byte>, s: Byte) {
    && (forall t: Byte | t < s :: t in used)
    && (s in used ==> s == 255)
  }

  function NextFrom(used: set<Byte>, from: Byte): (s: Byte)
    requires forall t: Byte | t < from :: t in used
    ensures Allocates(used, s)
    decreases 255 - from
  {
    if from == 255 || from !in used then from else NextFrom(used, from + 1)
  }

  function NextSubIdentifier(used: set<Byte>): (s: Byte)
    ensures Allocates(used, s)
  {
    NextFrom(used, 0)
  }

  function BytesBelow(n: nat): (s: set<Byte>)
    requires n <= 256
    ensures forall b: Byte :: b in s <==> b < n
    ensures |s| == n
  {
    if n == 0 then {} else BytesBelow(n - 1) + {n - 1}
  }

  lemma SubsetSize<T>(a: set<T>, b: set<T>)
    requires a <= b
    ensures |a| <= |b|
    ensures |a| == |b| ==> a == b
  {
    assert b == a + (b - a);
  }

  lemma AllocationUnique(used: set<Byte>, s: Byte)
    requires Allocates(used, s)
    ensures s == NextSubIdentifier(used)
  {
    var t := NextSubIdentifier(used);
    assert s < t ==> s in used;
    assert t < s ==> t in used;
  }

  lemma AllTaken(used: set<Byte>, all: nat)
    requires all == 256
    ensures |used| <= all && (|used| == all <==> forall b: Byte :: b in used)
  {
    SubsetSize(used, BytesBelow(all));
    if forall b: Byte :: b in used { assert used == BytesBelow(all); }
  }

  /**
   * The allocator's answer is free exactly when fewer than 256 sub-identifiers are taken, and then it is the
   * least free one.
   */
  lemma AllocatorFreeIff(used: set<Byte>)
    ensures NextSubIdentifier(used) !in used <==> |used| < 256
    ensures forall t: Byte | t < NextSubIdentifier(used) :: t in used
  {
    AllTaken(used, 256);
  }

  /** What every run keeps: ids are endpoint numbers, no two set devices share one, and an unset device reads 0. */
  ghost predicate Sound(r: Devices) {
    && (forall s <- r :: 0 <= r[s].id < 256)
    && (forall s <- r | !r[s].isSet :: r[s].id == 0)
    && (forall s <- r, t <- r | r[s].isSet && r[t].isSet && r[s].id == r[t].id :: s == t)
  }

  // ---- The choices a Go map iteration makes ----

  /** For every inventory id some device carries, one such device. */
  ghost predicate Candidates(r: Devices, ids: seq<Byte>, chosen: map<Byte, Byte>) {
    && (forall i :: i in chosen <==> i in ids && exists s <- r :: r[s].id == i)
    && (forall i <- chosen :: chosen[i] in r && r[chosen[i]].id == i)
  }

  /** The devices without an id, in some order. */
  ghost predicate UnsetOrder(r: Devices, unset: seq<Byte>) {
    Distinct(unset) && forall s :: s in unset <==> s in r && !r[s].isSet
  }

  // ---- The reconciliation ----

  datatype Plan = Plan(devices: Devices, mapping: map<Byte, Byte>, unset: seq<Byte>)

  function AssignOne(p: Plan, i: Byte): Plan {
    if i in p.mapping then p
    else if p.unset != [] then
      Plan(p.devices[p.unset[0] := Entry(i, true)], p.mapping[i := p.unset[0]], p.unset[1..])
    else
      var s := NextSubIdentifier(p.devices.Keys);
      Plan(p.devices[s := Entry(i, true)], p.mapping[i := s], [])
  }

  function Assign(p: Plan, ids: seq<Byte>): Plan
    decreases |ids|
  {
    if ids == [] then p else AssignOne(Assign(p, ids[..|ids| - 1]), ids[|ids| - 1])
  }

  predicate Stale(p: Plan, s: Byte)
    requires s in p.devices
  {
    p.devices[s].id !in p.mapping
  }

  /** The plan once devices whose id is not in the mapping are gone. */
  function Reconciled(r: Devices, ids: seq<Byte>, chosen: map<Byte, Byte>, unset: seq<Byte>): Plan {
    var p := Assign(Plan(r, chosen, unset), ids);
    p.(devices := map s | s in p.devices && !Stale(p, s) :: p.devices[s])
  }

  /** Inventory id 0 with a device that has no id yet: the match loop mistakes that device for id 0. */
  ghost predicate Clash(r: Devices, ids: seq<Byte>) {
    0 in ids && exists s <- r :: !r[s].isSet
  }

  /** What reconciliation is for: a total injective mapping onto exactly the node's devices, each set to its own id. */
  ghost predicate Correct(ids: seq<Byte>, p: Plan) {
    && (forall i :: i in p.mapping <==> i in ids)
    && (forall i <- p.mapping :: p.mapping[i] in p.devices && p.devices[p.mapping[i]] == Entry(i, true))
    && (forall s <- p.devices :: p.devices[s].id in p.mapping && p.mapping[p.devices[s].id] == s)
  }

  // ---- Capacity ----

  function Ids(r: Devices): set<int> {
    set s <- r :: r[s].id
  }

  /** Taking one device away takes its id away, which no other device carries. */
  lemma IdsWithout(r: Devices, s: Byte)
    requires s in r && forall t <- r | r[t].id == r[s].id :: t == s
    ensures Ids(r) == Ids(r - {s}) + {r[s].id} && r[s].id !in Ids(r - {s})
  {
    forall i <- Ids(r) ensures i in Ids(r - {s}) + {r[s].id} {
      var t :| t in r && r[t].id == i;
      if t != s { assert t in r - {s}; }
    }
  }

  lemma {:induction false} DistinctIds(r: Devices)
    requires forall s <- r, t <- r | r[s].id == r[t].id :: s == t
    ensures |r.Keys| == |Ids(r)|
  {
    if r.Keys == {} {
      assert Ids(r) == {};
    } else {
      var s :| s in r;
      IdsWithout(r, s);
      DistinctIds(r - {s});
      assert r.Keys == (r - {s}).Keys + {s};
    }
  }

  function IntsBelow(n: nat): (s: set<int>)
    ensures forall b :: b in s <==> 0 <= b < n
    ensures |s| == n
  {
    if n == 0 then {} else IntsBelow(n - 1) + {n - 1}
  }

  lemma RoomBelow(ids: set<int>, limit: nat, i: int)
    requires 0 <= i < limit && i !in ids && forall j <- ids :: 0 <= j < limit
    ensures |ids| < limit
  {
    var others := IntsBelow(limit) - {i};
    assert IntsBelow(limit) == others + {i};
    assert ids <= others;
    SubsetSize(ids, others);
  }

  /** When all devices are set and id `i` is nobody's, there is room for one more. */
  lemma RoomForOne(r: Devices, i: Byte)
    requires Sound(r) && (forall s <- r :: r[s].isSet && r[s].id != i)
    ensures |r.Keys| < 256
    ensures NextSubIdentifier(r.Keys) !in r
  {
    DistinctIds(r);
    RoomBelow(Ids(r), 256, i);
    AllocatorFreeIff(r.Keys);
  }

  // ---- The assignment loop's invariant ----

  ghost predicate Assigning(r: Devices, ids: set<Byte>, q: Plan) {
    Tidy(ids, q) && Keeps(r, q)
  }

  ghost predicate Tidy(ids: set<Byte>, q: Plan) {
    && Sound(q.devices)
    && UnsetOrder(q.devices, q.unset)
    && q.mapping.Values <= q.devices.Keys
    && (forall s <- q.devices :: q.devices[s].id in q.mapping || q.devices[s].id !in ids)
  }

  ghost predicate Keeps(r: Devices, q: Plan) {
    && (forall s <- r :: s in q.devices && (r[s].isSet ==> q.devices[s] == r[s]))
    && (forall s <- r | !r[s].isSet && q.devices[s].isSet :: q.devices[s].id in q.mapping)
    && (q.unset != [] ==> q.devices.Keys == r.Keys)
  }

  ghost predicate MappedExactly(q: Plan) {
    forall i <- q.mapping :: q.mapping[i] in q.devices && q.devices[q.mapping[i]] == Entry(i, true)
  }

  lemma AssignStart(r: Devices, ids: seq<Byte>, chosen: map<Byte, Byte>, unset: seq<Byte>)
    requires Sound(r) && Candidates(r, ids, chosen) && UnsetOrder(r, unset)
    ensures Assigning(r, Elements(ids), Plan(r, chosen, unset))
    ensures !Clash(r, ids) ==> MappedExactly(Plan(r, chosen, unset))
  {
    forall s <- r ensures r[s].id in chosen || r[s].id !in Elements(ids) { }
    if !Clash(r, ids) {
      forall i <- chosen ensures r[chosen[i]] == Entry(i, true) {
        if !r[chosen[i]].isSet { assert i == 0 && Clash(r, ids); }
      }
    }
  }

  lemma ValuesWith(m: map<Byte, Byte>, i: Byte, s: Byte)
    ensures m[i := s].Values <= m.Values + {s}
  {
  }

  lemma AllSet(q: Plan)
    requires UnsetOrder(q.devices, q.unset) && q.unset == []
    ensures forall s <- q.devices :: q.devices[s].isSet
  {
    forall s <- q.devices ensures q.devices[s].isSet { assert s !in q.unset; }
  }

  lemma ReuseTidy(ids: set<Byte>, i: Byte, q: Plan)
    requires Tidy(ids, q) && i in ids && i !in q.mapping && q.unset != []
    ensures Tidy(ids, AssignOne(q, i))
  {
    var p := AssignOne(q, i);
    assert q.unset == [q.unset[0]] + p.unset;
    assert forall t :: t in q.unset <==> t == q.unset[0] || t in p.unset;
    ValuesWith(q.mapping, i, q.unset[0]);
  }

  /** An unmapped inventory id always finds a free sub-identifier once every device has an id. */
  lemma CreateRoom(ids: set<Byte>, i: Byte, q: Plan)
    requires Tidy(ids, q) && i in ids && i !in q.mapping && q.unset == []
    ensures forall s <- q.devices :: q.devices[s].isSet && q.devices[s].id != i
    ensures |q.devices.Keys| < 256 && NextSubIdentifier(q.devices.Keys) !in q.devices
  {
    AllSet(q);
    RoomForOne(q.devices, i);
  }

  lemma SoundWith(r: Devices, s: Byte, i: Byte)
    requires Sound(r) && (forall t <- r :: r[t].isSet && r[t].id != i)
    ensures Sound(r[s := Entry(i, true)])
  {
  }

  lemma CreateTidy(ids: set<Byte>, i: Byte, q: Plan)
    requires Tidy(ids, q) && i in ids && i !in q.mapping && q.unset == []
    ensures Tidy(ids, AssignOne(q, i))
    ensures |q.devices.Keys| < 256 && NextSubIdentifier(q.devices.Keys) !in q.devices
  {
    var s := NextSubIdentifier(q.devices.Keys);
    CreateRoom(ids, i, q);
    SoundWith(q.devices, s, i);
    ValuesWith(q.mapping, i, s);
    NoneUnset(q.devices[s := Entry(i, true)]);
  }

  lemma NoneUnset(r: Devices)
    requires forall s <- r :: r[s].isSet
    ensures UnsetOrder(r, [])
  {
  }

  /** The sub-identifier an assignment writes is an unset device's or a free one. */
  lemma AssignStep(r: Devices, ids: set<Byte>, i: Byte, q: Plan)
    requires Assigning(r, ids, q) && i in ids
    ensures Assigning(r, ids, AssignOne(q, i))
    ensures i !in q.mapping && q.unset == [] ==>
              |q.devices.Keys| < 256 && NextSubIdentifier(q.devices.Keys) !in q.devices
    ensures i !in q.mapping && q.unset != [] ==> q.unset[0] in q.devices && !q.devices[q.unset[0]].isSet
  {
    if i !in q.mapping {
      if q.unset == [] {
        CreateTidy(ids, i, q);
        CreateKeeps(r, i, q);
      } else {
        ReuseTidy(ids, i, q);
        ReuseKeeps(r, i, q);
      }
    }
  }

  lemma CreateKeeps(r: Devices, i: Byte, q: Plan)
    requires Keeps(r, q) && q.unset == [] && i !in q.mapping && NextSubIdentifier(q.devices.Keys) !in q.devices
    ensures Keeps(r, AssignOne(q, i))
  {
  }

  lemma ReuseKeeps(r: Devices, i: Byte, q: Plan)
    requires Keeps(r, q) && q.unset != [] && i !in q.mapping && UnsetOrder(q.devices, q.unset)
    ensures Keeps(r, AssignOne(q, i)) && q.unset[0] in q.devices && !q.devices[q.unset[0]].isSet
  {
    assert q.unset[0] in q.unset;
  }

  lemma AssignMaps(ids: set<Byte>, i: Byte, q: Plan)
    requires Tidy(ids, q) && i in ids && MappedExactly(q)
    ensures MappedExactly(AssignOne(q, i))
  {
    if i !in q.mapping {
      if q.unset == [] { CreateTidy(ids, i, q); } else { assert q.unset[0] in q.unset; }
    }
  }

  lemma {:induction false} AssignKeys(q: Plan, ids: seq<Byte>)
    ensures Assign(q, ids).mapping.Keys == q.mapping.Keys + Elements(ids)
    decreases |ids|
  {
    if ids != [] {
      var init, i := ids[..|ids| - 1], ids[|ids| - 1];
      Last(ids);
      AssignKeys(q, init);
    }
  }

  lemma {:induction false} AssignInvariant(r: Devices, all: seq<Byte>, ids: seq<Byte>, chosen: map<Byte, Byte>,
                                           unset: seq<Byte>)
    requires Sound(r) && Candidates(r, all, chosen) && UnsetOrder(r, unset) && Elements(ids) <= Elements(all)
    ensures Assigning(r, Elements(all), Assign(Plan(r, chosen, unset), ids))
    ensures !Clash(r, all) ==> MappedExactly(Assign(Plan(r, chosen, unset), ids))
    decreases |ids|
  {
    if ids == [] {
      AssignStart(r, all, chosen, unset);
    } else {
      var init, i := ids[..|ids| - 1], ids[|ids| - 1];
      assert i in Elements(ids) && forall j <- Elements(init) :: j in Elements(ids);
      AssignInvariant(r, all, init, chosen, unset);
      var q := Assign(Plan(r, chosen, unset), init);
      AssignStep(r, Elements(all), i, q);
      if !Clash(r, all) { AssignMaps(Elements(all), i, q); }
    }
  }

  // ---- Main results ----

  /** Whatever order the maps deliver, reconciliation is correct and keeps every matching device. */
  lemma ReconcileCorrect(r: Devices, ids: seq<Byte>, chosen: map<Byte, Byte>, unset: seq<Byte>)
    requires Sound(r) && Candidates(r, ids, chosen) && UnsetOrder(r, unset) && !Clash(r, ids)
    ensures var p := Reconciled(r, ids, chosen, unset);
            && Correct(ids, p) && Sound(p.devices)
            && (forall s <- r | r[s].isSet && r[s].id in ids ::
                  s in p.devices && p.devices[s] == r[s] && p.mapping[r[s].id] == s)
            && ((exists s <- p.devices :: s !in r) ==> forall s <- r | !r[s].isSet :: s in p.devices)
  {
    AssignInvariant(r, ids, ids, chosen, unset);
    AssignKeys(Plan(r, chosen, unset), ids);
    var q := Assign(Plan(r, chosen, unset), ids);
    var p := Reconciled(r, ids, chosen, unset);
    forall s <- p.devices ensures p.devices[s].isSet && p.mapping[p.devices[s].id] == s {
      assert !q.devices[s].isSet ==> s in q.unset;
      assert q.devices[q.mapping[p.devices[s].id]] == Entry(p.devices[s].id, true);
    }
    assert (exists s <- p.devices :: s !in r) ==> q.unset == [];
  }

  /** With id 0 in the inventory and a device without an id, some iteration order makes reconciliation wrong. */
  lemma ClashGoesWrong(r: Devices, ids: seq<Byte>, unset: seq<Byte>)
    returns (chosen: map<Byte, Byte>)
    requires Sound(r) && UnsetOrder(r, unset) && Clash(r, ids)
    ensures Candidates(r, ids, chosen) && !Correct(ids, Reconciled(r, ids, chosen, unset))
  {
    var u :| u in r && !r[u].isSet;
    chosen := map i: Byte | i in ids && exists s <- r :: r[s].id == i ::
      if i == 0 then u else var s :| s in r && r[s].id == i; s;
    AssignInvariant(r, ids, ids, chosen, unset);
    AssignKeys(Plan(r, chosen, unset), ids);
    KeepsChosen(Plan(r, chosen, unset), ids, 0);
    var p := Reconciled(r, ids, chosen, unset);
    var q := Assign(Plan(r, chosen, unset), ids);
    assert q.mapping[0] == u;
    if Correct(ids, p) {
      assert p.devices[u] == Entry(0, true);
      NeverAssigned(Plan(r, chosen, unset), ids, 0);
      assert false;
    }
  }

  lemma {:induction false} KeepsChosen(p: Plan, ids: seq<Byte>, i: Byte)
    requires i in p.mapping
    ensures i in Assign(p, ids).mapping && Assign(p, ids).mapping[i] == p.mapping[i]
    decreases |ids|
  {
    if ids != [] { KeepsChosen(p, ids[..|ids| - 1], i); }
  }

  /** An id that is mapped from the start is never written to a device. */
  lemma {:induction false} NeverAssigned(p: Plan, ids: seq<Byte>, i: Byte)
    requires i in p.mapping
    ensures forall s <- Assign(p, ids).devices | Assign(p, ids).devices[s] == Entry(i, true) ::
              s in p.devices && p.devices[s] == Entry(i, true)
    decreases |ids|
  {
    if ids != [] {
      NeverAssigned(p, ids[..|ids| - 1], i);
      KeepsChosen(p, ids[..|ids| - 1], i);
    }
  }

  /** Reconciliation is correct in every iteration order exactly when there is no clash. */
  lemma ReconcileCorrectIff(r: Devices, ids: seq<Byte>)
    requires Sound(r)
    ensures (forall chosen, unset | Candidates(r, ids, chosen) && UnsetOrder(r, unset) ::
               Correct(ids, Reconciled(r, ids, chosen, unset)))
            <==> !Clash(r, ids)
  {
    if Clash(r, ids) {
      var unset := SomeUnsetOrder(r, set s | s in r && !r[s].isSet);
      var chosen := ClashGoesWrong(r, ids, unset);
    } else {
      forall chosen, unset | Candidates(r, ids, chosen) && UnsetOrder(r, unset)
        ensures Correct(ids, Reconciled(r, ids, chosen, unset))
      {
        ReconcileCorrect(r, ids, chosen, unset);
      }
    }
  }

  lemma SomeUnsetOrder(r: Devices, left: set<Byte>) returns (unset: seq<Byte>)
    ensures Distinct(unset) && forall s :: s in unset <==> s in left
  {
    if left == {} {
      unset := [];
    } else {
      var s :| s in left;
      unset := SomeUnsetOrder(r, left - {s});
      unset := [s] + unset;
    }
  }

  /** A second reconciliation with the same inventory changes nothing. */
  lemma ReconcileFixedPoint(ids: seq<Byte>, p: Plan, chosen: map<Byte, Byte>, unset: seq<Byte>)
    requires Correct(ids, p) && Candidates(p.devices, ids, chosen) && UnsetOrder(p.devices, unset)
    ensures Reconciled(p.devices, ids, chosen, unset) == Plan(p.devices, p.mapping, [])
  {
    assert forall s <- p.devices :: p.devices[s].isSet;
    EmptyOrNot(unset);
    assert chosen == p.mapping by {
      forall i ensures i in chosen <==> i in p.mapping {
        if i in p.mapping { assert p.devices[p.mapping[i]].id == i; }
      }
    }
    AssignNothing(Plan(p.devices, chosen, unset), ids);
    assert Reconciled(p.devices, ids, chosen, unset).devices == p.devices;
  }

  lemma {:induction false} AssignNothing(q: Plan, ids: seq<Byte>)
    requires forall i <- ids :: i in q.mapping
    ensures Assign(q, ids) == q
    decreases |ids|
  {
    if ids != [] {
      assert forall i <- ids[..|ids| - 1] :: i in ids;
      AssignNothing(q, ids[..|ids| - 1]);
    }
  }

  /** A mapped device carries a mapped id. */
  ghost predicate MappedHeld(q: Plan) {
    forall i <- q.mapping :: q.mapping[i] in q.devices && q.devices[q.mapping[i]].id in q.mapping
  }

  lemma {:induction false} AssignMappedHeld(q: Plan, ids: seq<Byte>)
    requires MappedHeld(q)
    ensures MappedHeld(Assign(q, ids))
    decreases |ids|
  {
    if ids != [] { AssignMappedHeld(q, ids[..|ids| - 1]); }
  }

  /** No mapped device is removed, clash or not. */
  lemma MappedDevicesStay(r: Devices, ids: seq<Byte>, chosen: map<Byte, Byte>, unset: seq<Byte>)
    requires Candidates(r, ids, chosen)
    ensures var p := Reconciled(r, ids, chosen, unset);
            p.mapping.Keys == Elements(ids) && forall i <- p.mapping :: p.mapping[i] in p.devices
  {
    AssignMappedHeld(Plan(r, chosen, unset), ids);
    AssignKeys(Plan(r, chosen, unset), ids);
  }
}
