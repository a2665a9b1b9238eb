/** Reconciling one device's capabilities with the rule output, on values. */
module CapabilityPlan {
  import opened Wrappers
  import opened Factory

  /** What a capability's `Enumerate` does; a panic is recovered and reports no attachment. */
  datatype Outcome = Attached | Refused | Panicked

  /** One step of the capability loop: an implementation name and what becomes of it. */
  datatype Attempt = Attempt(name: string, made: Option<Implementation>, outcome: Outcome)

  type Held = map<Category, Implementation>

  datatype Progress = Progress(held: Held, active: set<Category>, status: map<Category, bool>)

  /** `enumerateCapabilityOnDevice`: the device's capabilities and whether the implementation attached. */
  function EnumerateOne(held: Held, active: set<Category>, c: Category, a: Attempt): (Held, bool) {
    if c in active then (held, false) else
      var found := c in held && held[c].name == a.name;
      var kept := if c in held && !found then held - {c} else held;
      if !found && a.made.None? then (kept, false) else
        var implementation := if found then held[c] else a.made.value;
        match a.outcome
        case Attached => (kept[implementation.category := implementation], true)
        case Refused => (kept - {implementation.category}, false)
        case Panicked => (kept, false)
  }

  function Step(m: Mapping, p: Progress, a: Attempt): Progress {
    if a.name !in m then p else
      var c := m[a.name];
      var (held, attached) := EnumerateOne(p.held, p.active, c, a);
      Progress(held, if attached then p.active + {c} else p.active, p.status[c := attached])
  }

  function Steps(m: Mapping, p: Progress, attempts: seq<Attempt>): Progress
    decreases |attempts|
  {
    if attempts == [] then p else Step(m, Steps(m, p, attempts[..|attempts| - 1]), attempts[|attempts| - 1])
  }

  function Start(held: Held): Progress {
    Progress(held, {}, map[EnumerateDevice := true])
  }

  /** The last loop: what was not enumerated as active is detached and reported as not attached. */
  function Finish(p: Progress): Progress {
    var redundant := p.held.Keys - p.active;
    Progress(p.held - redundant, p.active, p.status + map c <- redundant :: false)
  }

  function Updated(m: Mapping, held: Held, attempts: seq<Attempt>): Progress {
    Finish(Steps(m, Start(held), attempts))
  }

  /** Each capability sits under its own category, and none is built in. */
  ghost predicate WellHeld(m: Mapping, held: Held) {
    forall c <- held :: Attachable(c) && held[c].category == c && held[c].name in m && m[held[c].name] == c
  }

  /** What the factory made for the attempt is an implementation of that name and category. */
  ghost predicate FactoryMade(m: Mapping, a: Attempt) {
    a.made.Some? ==> a.name in m && a.made.value == Implementation(a.name, m[a.name])
  }

  ghost predicate AllFactoryMade(m: Mapping, attempts: seq<Attempt>) {
    forall a <- attempts :: FactoryMade(m, a)
  }

  /** The attempt would attach its category if it were made while the category is not active. */
  ghost predicate Attaches(m: Mapping, a: Attempt, c: Category) {
    a.name in m && m[a.name] == c && a.made.Some? && a.outcome == Attached
  }

  ghost predicate SomeAttaches(m: Mapping, attempts: seq<Attempt>, c: Category) {
    exists a <- attempts :: Attaches(m, a, c)
  }

  lemma StepActivates(m: Mapping, p: Progress, a: Attempt)
    requires WellMapped(m) && WellHeld(m, p.held) && FactoryMade(m, a)
    requires a.name in m ==> a.made.Some?
    ensures forall c :: c in Step(m, p, a).active <==> c in p.active || Attaches(m, a, c)
  {
  }

  lemma StepHolds(m: Mapping, p: Progress, a: Attempt)
    requires WellMapped(m) && WellHeld(m, p.held) && FactoryMade(m, a) && p.active <= p.held.Keys
    ensures WellHeld(m, Step(m, p, a).held)
    ensures Step(m, p, a).active <= Step(m, p, a).held.Keys
  {
  }

  lemma StepKeeps(m: Mapping, p: Progress, a: Attempt)
    requires WellMapped(m) && WellHeld(m, p.held) && FactoryMade(m, a) && p.active <= p.held.Keys
    requires a.name in m ==> a.made.Some?
    ensures WellHeld(m, Step(m, p, a).held)
    ensures Step(m, p, a).active <= Step(m, p, a).held.Keys
    ensures forall c :: c in Step(m, p, a).active <==> c in p.active || Attaches(m, a, c)
  {
    StepHolds(m, p, a);
    StepActivates(m, p, a);
  }

  lemma {:induction false} StepsKeep(m: Mapping, held: Held, attempts: seq<Attempt>)
    requires WellMapped(m) && WellHeld(m, held) && AllFactoryMade(m, attempts)
    requires forall a <- attempts | a.name in m :: a.made.Some?
    ensures var p := Steps(m, Start(held), attempts);
            && WellHeld(m, p.held) && p.active <= p.held.Keys
            && forall c :: c in p.active <==> SomeAttaches(m, attempts, c)
    decreases |attempts|
  {
    if attempts != [] {
      var init, a := attempts[..|attempts| - 1], attempts[|attempts| - 1];
      assert attempts == init + [a];
      StepsKeep(m, held, init);
      StepKeeps(m, Steps(m, Start(held), init), a);
      forall c ensures SomeAttaches(m, attempts, c) <==> SomeAttaches(m, init, c) || Attaches(m, a, c) {
        if SomeAttaches(m, init, c) { var b :| b in init && Attaches(m, b, c); assert b in attempts; }
        if Attaches(m, a, c) { assert a in attempts; }
      }
    }
  }

  /** Afterwards the device holds exactly the categories some attempt attached, each by the mapped implementation. */
  lemma HeldExactly(m: Mapping, held: Held, attempts: seq<Attempt>)
    requires WellMapped(m) && WellHeld(m, held) && AllFactoryMade(m, attempts)
    requires forall a <- attempts | a.name in m :: a.made.Some?
    ensures var p := Updated(m, held, attempts);
            && WellHeld(m, p.held)
            && forall c :: c in p.held <==> SomeAttaches(m, attempts, c)
  {
    StepsKeep(m, held, attempts);
  }

  /**
   * Attempts with the same attachments leave the same capabilities, whatever their order and the capabilities
   * before.
   */
  lemma HeldOrderFree(m: Mapping, held: Held, attempts: seq<Attempt>, held': Held, attempts': seq<Attempt>)
    requires WellMapped(m) && WellHeld(m, held) && WellHeld(m, held')
    requires AllFactoryMade(m, attempts) && AllFactoryMade(m, attempts')
    requires forall a <- attempts | a.name in m :: a.made.Some?
    requires forall a <- attempts' | a.name in m :: a.made.Some?
    requires forall a :: a in attempts <==> a in attempts'
    ensures Updated(m, held, attempts).held == Updated(m, held', attempts').held
  {
    HeldExactly(m, held, attempts);
    HeldExactly(m, held', attempts');
    var h, h' := Updated(m, held, attempts).held, Updated(m, held', attempts').held;
    forall c ensures c in h <==> c in h' {
      assert SomeAttaches(m, attempts, c) <==> SomeAttaches(m, attempts', c);
    }
    forall c <- h ensures h[c] == h'[c] {
    }
  }

  // ---- Status ----

  /** The attempts are at the category after one of them has already attached it. */
  ghost predicate RetriedAfterAttach(m: Mapping, attempts: seq<Attempt>, c: Category) {
    exists i, j :: Retries(m, attempts, c, i, j)
  }

  /** A status tells whether its category is held, the enumeration capability itself counting as held. */
  ghost predicate StatusTruthful(p: Progress) {
    forall c <- p.status :: p.status[c] <==> c in p.held || c == EnumerateDevice
  }

  lemma {:induction false} StatusDuring(m: Mapping, held: Held, attempts: seq<Attempt>)
    requires WellMapped(m) && WellHeld(m, held) && AllFactoryMade(m, attempts)
    requires forall a <- attempts | a.name in m :: a.made.Some?
    ensures var p := Steps(m, Start(held), attempts);
            && (forall c <- p.status | p.status[c] :: c in p.active || c == EnumerateDevice)
            && (forall c <- p.active :: c in p.status && (p.status[c] <==> !RetriedAfterAttach(m, attempts, c)))
            && EnumerateDevice in p.status && p.status[EnumerateDevice]
    decreases |attempts|
  {
    if attempts != [] {
      var init, a := attempts[..|attempts| - 1], attempts[|attempts| - 1];
      assert attempts == init + [a];
      var q := Steps(m, Start(held), init);
      StatusDuring(m, held, init);
      StepsKeep(m, held, init);
      StepsKeep(m, held, attempts);
      forall c ensures RetriedAfterAttach(m, attempts, c) <==>
                       RetriedAfterAttach(m, init, c) || (c in q.active && a.name in m && m[a.name] == c) {
        RetriedSnoc(m, init, a, c);
      }
      forall c ensures c in q.active ==> !(c in q.status) || q.status[c] == !RetriedAfterAttach(m, init, c) { }
      forall c ensures RetriedAfterAttach(m, init, c) ==> c in q.active { RetriedWasAttached(m, init, c); }
    }
  }

  lemma RetriedWasAttached(m: Mapping, attempts: seq<Attempt>, c: Category)
    ensures RetriedAfterAttach(m, attempts, c) ==> SomeAttaches(m, attempts, c)
  {
    if RetriedAfterAttach(m, attempts, c) {
      var i, j :| Retries(m, attempts, c, i, j);
      assert attempts[i] in attempts;
    }
  }

  /** The `j`th attempt is at the category after the `i`th attached it. */
  ghost predicate Retries(m: Mapping, attempts: seq<Attempt>, c: Category, i: int, j: int) {
    && 0 <= i < j < |attempts| && Attaches(m, attempts[i], c)
    && attempts[j].name in m && m[attempts[j].name] == c
  }

  lemma RetriedBefore(m: Mapping, init: seq<Attempt>, a: Attempt, c: Category)
    requires RetriedAfterAttach(m, init + [a], c)
    ensures RetriedAfterAttach(m, init, c) || (SomeAttaches(m, init, c) && a.name in m && m[a.name] == c)
  {
    var all := init + [a];
    var i, j :| Retries(m, all, c, i, j);
    assert all[i] == init[i] && init[i] in init;
    if j < |init| { assert Retries(m, init, c, i, j); }
  }

  lemma RetriedSnoc(m: Mapping, init: seq<Attempt>, a: Attempt, c: Category)
    ensures RetriedAfterAttach(m, init + [a], c) <==>
            RetriedAfterAttach(m, init, c) || (SomeAttaches(m, init, c) && a.name in m && m[a.name] == c)
  {
    var all := init + [a];
    if RetriedAfterAttach(m, all, c) { RetriedBefore(m, init, a, c); }
    if i, j :| Retries(m, init, c, i, j) {
      assert Retries(m, all, c, i, j);
    }
    if SomeAttaches(m, init, c) && a.name in m && m[a.name] == c {
      var b :| b in init && Attaches(m, b, c);
      var i :| 0 <= i < |init| && init[i] == b;
      assert Retries(m, all, c, i, |init|);
    }
  }

  /** The reported statuses are truthful exactly when no category is tried again after it attached. */
  lemma StatusTruthfulIff(m: Mapping, held: Held, attempts: seq<Attempt>)
    requires WellMapped(m) && WellHeld(m, held) && AllFactoryMade(m, attempts)
    requires forall a <- attempts | a.name in m :: a.made.Some?
    ensures StatusTruthful(Updated(m, held, attempts)) <==> forall c :: !RetriedAfterAttach(m, attempts, c)
  {
    StatusDuring(m, held, attempts);
    StepsKeep(m, held, attempts);
    var p := Steps(m, Start(held), attempts);
    var f := Updated(m, held, attempts);
    forall c | RetriedAfterAttach(m, attempts, c)
      ensures c in p.active && c in f.held && c in f.status && !f.status[c] && c != EnumerateDevice
    {
      RetriedWasAttached(m, attempts, c);
    }
    if forall c :: !RetriedAfterAttach(m, attempts, c) {
      forall c <- f.status ensures f.status[c] <==> c in f.held || c == EnumerateDevice {
        assert EnumerateDevice !in p.held;
      }
    }
  }

  /** One endpoint's rule output names each implementation once, so its statuses are truthful. */
  lemma OneEndpointTruthful(m: Mapping, held: Held, attempts: seq<Attempt>)
    requires WellMapped(m) && WellHeld(m, held) && AllFactoryMade(m, attempts)
    requires forall a <- attempts | a.name in m :: a.made.Some?
    requires forall i, j | 0 <= i < j < |attempts| :: attempts[i].name != attempts[j].name
    ensures StatusTruthful(Updated(m, held, attempts))
  {
    StatusTruthfulIff(m, held, attempts);
    forall c ensures !RetriedAfterAttach(m, attempts, c) { }
  }

  /** Some attempt is at the category. */
  ghost predicate Tried(m: Mapping, attempts: seq<Attempt>, c: Category) {
    exists a <- attempts :: a.name in m && m[a.name] == c
  }

  lemma TriedSnoc(m: Mapping, init: seq<Attempt>, a: Attempt, c: Category)
    ensures Tried(m, init + [a], c) <==> Tried(m, init, c) || (a.name in m && m[a.name] == c)
  {
    var all := init + [a];
    assert forall b :: b in all <==> b in init || b == a;
  }

  /** A step leaves the status and the capability of every other category alone. */
  lemma StepElsewhere(m: Mapping, p: Progress, a: Attempt, c: Category)
    requires WellHeld(m, p.held) && FactoryMade(m, a) && !(a.name in m && m[a.name] == c)
    ensures var q := Step(m, p, a); (c in q.status <==> c in p.status) && (c in q.held <==> c in p.held)
  {
  }

  lemma {:induction false} StatusOfTried(m: Mapping, held: Held, attempts: seq<Attempt>, c: Category)
    requires WellMapped(m) && WellHeld(m, held) && AllFactoryMade(m, attempts)
    requires forall a <- attempts | a.name in m :: a.made.Some?
    ensures var p := Steps(m, Start(held), attempts);
            && (c in p.status <==> c == EnumerateDevice || Tried(m, attempts, c))
            && (!Tried(m, attempts, c) ==> (c in p.held <==> c in held))
    decreases |attempts|
  {
    if attempts != [] {
      var init, a := attempts[..|attempts| - 1], attempts[|attempts| - 1];
      assert attempts == init + [a];
      StatusOfTried(m, held, init, c);
      StepsKeep(m, held, init);
      TriedSnoc(m, init, a, c);
      if !(a.name in m && m[a.name] == c) { StepElsewhere(m, Steps(m, Start(held), init), a, c); }
    }
  }

  /**
   * The report has a status for the built-in enumeration, every category tried and every category held before; no
   * other.
   */
  lemma StatusKeys(m: Mapping, held: Held, attempts: seq<Attempt>, c: Category)
    requires WellMapped(m) && WellHeld(m, held) && AllFactoryMade(m, attempts)
    requires forall a <- attempts | a.name in m :: a.made.Some?
    ensures c in Updated(m, held, attempts).status <==> c == EnumerateDevice || Tried(m, attempts, c) || c in held
  {
    StatusOfTried(m, held, attempts, c);
    StepsKeep(m, held, attempts);
    if c in Steps(m, Start(held), attempts).active {
      var a :| a in attempts && Attaches(m, a, c);
    }
  }

  /** Every held capability has a status. */
  lemma StatusCovers(m: Mapping, held: Held, attempts: seq<Attempt>)
    requires WellMapped(m) && WellHeld(m, held) && AllFactoryMade(m, attempts)
    requires forall a <- attempts | a.name in m :: a.made.Some?
    ensures var p := Updated(m, held, attempts); p.held.Keys <= p.status.Keys
  {
    StatusDuring(m, held, attempts);
    StepsKeep(m, held, attempts);
  }
}
