/** The device and capability events a gateway emits, and the view a reader rebuilds from them. */
module EventLog {
  import opened Keys
  import opened Factory

  datatype Address = Address(ieee: Ieee, sub: Byte)

  datatype Event =
    | DeviceAdded(device: Address)
    | DeviceRemoved(device: Address)
    | CapabilityAdded(device: Address, capability: Category)
    | CapabilityRemoved(device: Address, capability: Category)

  /** The devices a reader knows of, each with its capabilities. */
  type View = map<Address, set<Category>>

  function Apply(v: View, e: Event): View {
    match e
    case DeviceAdded(a) => if a in v then v else v[a := {}]
    case DeviceRemoved(a) => v - {a}
    case CapabilityAdded(a, c) => if a in v then v[a := v[a] + {c}] else v
    case CapabilityRemoved(a, c) => if a in v then v[a := v[a] - {c}] else v
  }

  function Replay(log: seq<Event>): View {
    if log == [] then map[] else Apply(Replay(log[..|log| - 1]), log[|log| - 1])
  }

  /** An event that makes sense to a reader: it names a device it knows, and only a bare device is removed. */
  predicate Sensible(v: View, e: Event) {
    match e
    case DeviceAdded(a) => a !in v
    case DeviceRemoved(a) => a in v && v[a] == {}
    case CapabilityAdded(a, c) => a in v
    case CapabilityRemoved(a, c) => a in v && c in v[a]
  }

  /** Every event is sensible after the events before it. */
  ghost predicate Coherent(log: seq<Event>) {
    forall i | 0 <= i < |log| :: Sensible(Replay(log[..i]), log[i])
  }

  lemma Snoc(log: seq<Event>, e: Event)
    ensures Replay(log + [e]) == Apply(Replay(log), e)
    ensures Coherent(log) && Sensible(Replay(log), e) ==> Coherent(log + [e])
  {
    var all := log + [e];
    assert all[..|all| - 1] == log;
    if Coherent(log) && Sensible(Replay(log), e) {
      forall i | 0 <= i < |all| ensures Sensible(Replay(all[..i]), all[i]) {
        if i < |log| { assert all[..i] == log[..i]; } else { assert all[..i] == log; }
      }
    }
  }

  // ---- What a log says, read off its events ----

  /** The device was added and not removed since. */
  ghost predicate Known(log: seq<Event>, a: Address) {
    exists j :: KnownSince(log, a, j)
  }

  ghost predicate KnownSince(log: seq<Event>, a: Address, j: int) {
    0 <= j < |log| && log[j] == DeviceAdded(a) && forall k | j < k < |log| :: log[k] != DeviceRemoved(a)
  }

  /** The capability was added, and neither it nor its device was removed since. */
  ghost predicate Shows(log: seq<Event>, a: Address, c: Category) {
    exists j :: ShowsSince(log, a, c, j)
  }

  ghost predicate ShowsSince(log: seq<Event>, a: Address, c: Category, j: int) {
    && 0 <= j < |log| && log[j] == CapabilityAdded(a, c)
    && forall k | j < k < |log| :: log[k] != CapabilityRemoved(a, c) && log[k] != DeviceRemoved(a)
  }

  /**
   * The event fits a reader who saw the log: it adds what is new to a device it knows, or takes away what it was
   * shown.
   */
  ghost predicate Fits(log: seq<Event>, e: Event) {
    match e
    case DeviceAdded(a) => !Known(log, a)
    case DeviceRemoved(a) => Known(log, a) && forall c :: !Shows(log, a, c)
    case CapabilityAdded(a, c) => Known(log, a)
    case CapabilityRemoved(a, c) => Known(log, a) && Shows(log, a, c)
  }

  /** Every event fitted the log before it. */
  ghost predicate InOrder(log: seq<Event>) {
    forall i | 0 <= i < |log| :: Fits(log[..i], log[i])
  }

  lemma KnownSnoc(log: seq<Event>, e: Event, a: Address)
    ensures Known(log + [e], a) <==> e == DeviceAdded(a) || (Known(log, a) && e != DeviceRemoved(a))
  {
    var all := log + [e];
    if j :| KnownSince(all, a, j) {
      if j < |log| {
        assert forall k | j < k < |log| :: log[k] == all[k];
        assert KnownSince(log, a, j) && all[|log|] == e;
      }
    }
    if e == DeviceAdded(a) { assert KnownSince(all, a, |log|); }
    if j :| KnownSince(log, a, j) && e != DeviceRemoved(a) { assert KnownSince(all, a, j); }
  }

  lemma ShowsSnoc(log: seq<Event>, e: Event, a: Address, c: Category)
    ensures Shows(log + [e], a, c) <==>
            || e == CapabilityAdded(a, c)
            || (Shows(log, a, c) && e != CapabilityRemoved(a, c) && e != DeviceRemoved(a))
  {
    var all := log + [e];
    if j :| ShowsSince(all, a, c, j) {
      if j < |log| {
        assert forall k | j < k < |log| :: log[k] == all[k];
        assert ShowsSince(log, a, c, j) && all[|log|] == e;
      }
    }
    if e == CapabilityAdded(a, c) { assert ShowsSince(all, a, c, |log|); }
    if j :| ShowsSince(log, a, c, j) && e != CapabilityRemoved(a, c) && e != DeviceRemoved(a) {
      assert ShowsSince(all, a, c, j);
    }
  }

  /** A reader's view of a coherent log is what its events say. */
  lemma {:induction false} ReplayMeans(log: seq<Event>, a: Address, c: Category)
    requires Coherent(log)
    ensures a in Replay(log) <==> Known(log, a)
    ensures a in Replay(log) && c in Replay(log)[a] <==> Shows(log, a, c)
  {
    if log != [] {
      var init, e := log[..|log| - 1], log[|log| - 1];
      assert log == init + [e];
      CoherentInit(log);
      ReplayMeans(init, a, c);
      KnownSnoc(init, e, a);
      ShowsSnoc(init, e, a, c);
      assert Sensible(Replay(init), e);
    }
  }

  lemma CoherentInit(log: seq<Event>)
    requires Coherent(log) && log != []
    ensures Coherent(log[..|log| - 1])
  {
    var init := log[..|log| - 1];
    forall i | 0 <= i < |init| ensures Sensible(Replay(init[..i]), init[i]) { assert init[..i] == log[..i]; }
  }

  lemma CoherentPrefix(log: seq<Event>, n: nat)
    requires Coherent(log) && n <= |log|
    ensures Coherent(log[..n])
  {
    forall i | 0 <= i < n ensures Sensible(Replay(log[..n][..i]), log[..n][i]) { assert log[..n][..i] == log[..i]; }
  }

  /**
   * In a coherent log no capability event names an absent device, and a device goes only after all it was shown
   * with.
   */
  lemma CoherentInOrder(log: seq<Event>)
    requires Coherent(log)
    ensures InOrder(log)
  {
    forall i | 0 <= i < |log| ensures Fits(log[..i], log[i]) {
      CoherentPrefix(log, i);
      assert Sensible(Replay(log[..i]), log[i]);
      var a := log[i].device;
      ReplayMeans(log[..i], a, EnumerateDevice);
      forall c ensures a in Replay(log[..i]) && c in Replay(log[..i])[a] <==> Shows(log[..i], a, c) {
        ReplayMeans(log[..i], a, c);
      }
    }
  }
}
