/** Permitting nodes to join for a while: grants, their timers and what ends them (device_discovery.go). */
module DeviceDiscovery {
  import opened Wrappers

  /**
   * The discovery's fields and the runtime's timers. `pending` are the timers that have not fired, with their
   * deadlines; `inFlight` are those whose callback is under way; `failed` those whose callback could not deny
   * joining.
   */
  datatype State = State(now: int, discovering: bool, allowTimer: Option<nat>, allowExpiresAt: Option<int>,
                         pending: map<nat, int>, inFlight: set<nat>, failed: set<nat>, made: nat)

  /** Calls by users, with the provider's answer, and what timers and the clock do. */
  datatype Step =
    | Enable(permitted: bool, duration: int)
    | Disable(denied: bool)
    | Fire(timer: nat)
    | Complete(timer: nat, denied: bool)
    | Pass(time: nat)

  function Initial(now: int): State {
    State(now, false, None, None, map[], {}, {}, 0)
  }

  /** A timer fires at its deadline or later. */
  predicate Enabled(s: State, step: Step) {
    match step
    case Fire(t) => t in s.pending && s.pending[t] <= s.now
    case Complete(t, _) => t in s.inFlight
    case _ => true
  }

  /** The old timer is stopped, unless it has fired already; a new one is set. */
  function Granted(s: State, duration: int): State {
    var left := if s.allowTimer.Some? then s.pending - {s.allowTimer.value} else s.pending;
    s.(discovering := true, allowTimer := Some(s.made), allowExpiresAt := Some(s.now + duration),
       pending := left[s.made := s.now + duration], made := s.made + 1)
  }

  /** The timer is forgotten, not stopped. */
  function Ended(s: State): State {
    s.(discovering := false, allowTimer := None, allowExpiresAt := None)
  }

  function After(s: State, step: Step): State {
    match step
    case Enable(permitted, duration) => if permitted then Granted(s, duration) else s
    case Disable(denied) => if denied then Ended(s) else s
    case Fire(t) => s.(pending := s.pending - {t}, inFlight := s.inFlight + {t})
    case Complete(t, denied) =>
      var u := s.(inFlight := s.inFlight - {t});
      if denied then Ended(u) else u.(failed := u.failed + {t})
    case Pass(time) => s.(now := s.now + time)
  }

  function RunFrom(s: State, steps: seq<Step>): Option<State>
    decreases |steps|
  {
    if steps == [] then Some(s) else
      var r, step := RunFrom(s, steps[..|steps| - 1]), steps[|steps| - 1];
      if r.Some? && Enabled(r.value, step) then Some(After(r.value, step)) else None
  }

  // ---- The methods ----

  /** The runtime's clock and timers. */
  class Timers {
    var now: int
    var pending: map<nat, int>
    ghost var inFlight: set<nat>
    ghost var failed: set<nat>
    var made: nat

    constructor (now: int)
      ensures this.now == now && pending == map[] && inFlight == failed == {} && made == 0
    {
      this.now, pending, made := now, map[], 0;
      inFlight, failed := {}, {};
    }

    method AfterFunc(duration: int) returns (t: nat)
      modifies this`pending, this`made
      ensures t == old(made) && made == t + 1 && pending == old(pending)[t := now + duration]
    {
      t := made;
      pending, made := pending[t := now + duration], made + 1;
    }

    method Stop(t: nat)
      modifies this`pending
      ensures pending == old(pending) - {t}
    {
      pending := pending - {t};
    }
  }

  class Discovery {
    const timers: Timers
    var discovering: bool
    var allowTimer: Option<nat>
    var allowExpiresAt: Option<int>

    constructor (timers: Timers)
      ensures this.timers == timers && !discovering && allowTimer == None && allowExpiresAt == None
    {
      this.timers := timers;
      discovering, allowTimer, allowExpiresAt := false, None, None;
    }

    ghost function View(): State
      reads this, timers
    {
      State(timers.now, discovering, allowTimer, allowExpiresAt, timers.pending, timers.inFlight, timers.failed,
            timers.made)
    }

    method Enable(permitted: bool, duration: int) returns (ok: bool)
      modifies this, timers
      ensures ok == permitted && View() == After(old(View()), Step.Enable(permitted, duration))
      ensures ok ==> discovering && allowExpiresAt == Some(timers.now + duration)
      ensures ok ==> allowTimer.Some? && allowTimer.value in timers.pending
                     && timers.pending[allowTimer.value] == timers.now + duration
    {
      if !permitted { return false; }
      if allowTimer.Some? { timers.Stop(allowTimer.value); }
      allowExpiresAt := Some(timers.now + duration);
      var t := timers.AfterFunc(duration);
      allowTimer := Some(t);
      discovering := true;
      return true;
    }

    method Disable(denied: bool) returns (ok: bool)
      modifies this
      ensures ok == denied && View() == After(old(View()), Step.Disable(denied))
      ensures ok ==> !discovering && allowTimer == None && allowExpiresAt == None
    {
      if !denied { return false; }
      discovering := false;
      allowTimer := None;
      allowExpiresAt := None;
      return true;
    }

    method Status() returns (discovering: bool, remaining: int)
      ensures discovering == this.discovering
      ensures remaining == if allowExpiresAt.Some? && allowExpiresAt.value > timers.now
                           then allowExpiresAt.value - timers.now else 0
    {
      remaining := 0;
      if allowExpiresAt.Some? {
        remaining := allowExpiresAt.value - timers.now;
        if remaining < 0 { remaining := 0; }
      }
      discovering := this.discovering;
    }
  }

  // ---- What every run keeps ----

  ghost predicate TimersApart(s: State) {
    && (forall t <- s.pending :: t < s.made && t !in s.inFlight && t !in s.failed)
    && (forall t <- s.inFlight :: t < s.made && t !in s.failed)
    && (forall t <- s.failed :: t < s.made)
  }

  /** While discovering, the grant's own timer is pending for just its end, or has fired at or after it. */
  ghost predicate GrantTimed(s: State) {
    && (s.discovering <==> s.allowTimer.Some?) && (s.discovering <==> s.allowExpiresAt.Some?)
    && (s.discovering ==>
          var t, end := s.allowTimer.value, s.allowExpiresAt.value;
          && t < s.made
          && if t in s.pending then s.pending[t] == end else (t in s.inFlight || t in s.failed) && end <= s.now)
  }

  ghost predicate Inv(s: State) {
    TimersApart(s) && GrantTimed(s)
  }

  lemma StepKeeps(s: State, step: Step)
    requires Inv(s) && Enabled(s, step)
    ensures Inv(After(s, step))
  {
  }

  lemma {:induction false} RunKeeps(s: State, steps: seq<Step>)
    requires Inv(s) && RunFrom(s, steps).Some?
    ensures Inv(RunFrom(s, steps).value)
    decreases |steps|
  {
    if steps != [] {
      RunKeeps(s, steps[..|steps| - 1]);
      StepKeeps(RunFrom(s, steps[..|steps| - 1]).value, steps[|steps| - 1]);
    }
  }

  // ---- What the steps say ----

  /** The time, read off the steps. */
  function Clock(start: int, steps: seq<Step>): int
    decreases |steps|
  {
    if steps == [] then start else
      Clock(start, steps[..|steps| - 1]) + match steps[|steps| - 1] case Pass(time) => time as int case _ => 0
  }

  /** Since the latest permitted Enable nothing has denied joining. */
  predicate Granting(steps: seq<Step>)
    decreases |steps|
  {
    if steps == [] then false else
      match steps[|steps| - 1]
      case Enable(permitted, _) => permitted || Granting(steps[..|steps| - 1])
      case Disable(denied) => !denied && Granting(steps[..|steps| - 1])
      case Complete(_, denied) => !denied && Granting(steps[..|steps| - 1])
      case _ => Granting(steps[..|steps| - 1])
  }

  /** Of the latest permitted Enable: when it was called and for how long. */
  function LatestGrant(start: int, steps: seq<Step>): (g: Option<(int, int)>)
    ensures Granting(steps) ==> g.Some?
    decreases |steps|
  {
    if steps == [] then None else
      var init, step := steps[..|steps| - 1], steps[|steps| - 1];
      if step.Enable? && step.permitted then Some((Clock(start, init), step.duration)) else LatestGrant(start, init)
  }

  /** When the latest grant ends: its time and its duration together. */
  function GrantEnd(start: int, steps: seq<Step>): int
    requires LatestGrant(start, steps).Some?
  {
    LatestGrant(start, steps).value.0 + LatestGrant(start, steps).value.1
  }

  lemma {:induction false} RunTells(start: int, steps: seq<Step>)
    requires RunFrom(Initial(start), steps).Some?
    ensures var s := RunFrom(Initial(start), steps).value;
            && s.now == Clock(start, steps) && s.discovering == Granting(steps)
            && (Granting(steps) ==> s.allowExpiresAt == Some(GrantEnd(start, steps)))
            && (!Granting(steps) ==> s.allowExpiresAt == None)
    decreases |steps|
  {
    if steps != [] { RunTells(start, steps[..|steps| - 1]); }
  }

  // ---- Main results ----

  /**
   * Discovery is on exactly since a permitted Enable that nothing has ended yet. Its own timer is then pending for just
   * the time of that Enable plus its duration, unless the timer's callback is under way or could not deny joining.
   */
  lemma NeverOutlivesGrant(start: int, steps: seq<Step>)
    requires RunFrom(Initial(start), steps).Some?
    ensures var s := RunFrom(Initial(start), steps).value;
            && (s.discovering <==> Granting(steps))
            && (s.discovering ==> s.allowTimer.Some?)
            && (s.discovering && s.allowTimer.value !in s.inFlight && s.allowTimer.value !in s.failed ==>
                  s.allowTimer.value in s.pending && s.pending[s.allowTimer.value] == GrantEnd(start, steps))
  {
    RunKeeps(Initial(start), steps);
    RunTells(start, steps);
  }

  /** The remaining time is what is left until the latest grant's end while discovering, and nothing otherwise. */
  lemma RemainingTells(start: int, steps: seq<Step>)
    requires RunFrom(Initial(start), steps).Some?
    ensures var s := RunFrom(Initial(start), steps).value;
            Remaining(s) == if Granting(steps) && Clock(start, steps) < GrantEnd(start, steps)
                            then GrantEnd(start, steps) - Clock(start, steps) else 0
  {
    RunTells(start, steps);
  }

  /** What `Status` reports as remaining. */
  function Remaining(s: State): int {
    if s.allowExpiresAt.Some? && s.allowExpiresAt.value > s.now then s.allowExpiresAt.value - s.now else 0
  }

  // ---- How long a grant lasts ----

  /** No user call takes effect in these steps. */
  predicate LeftAlone(steps: seq<Step>) {
    forall step <- steps :: !(step.Enable? && step.permitted) && !(step.Disable? && step.denied)
  }

  /** Another callback that may end the grant early: one under way, or a forgotten timer due before the grant's end. */
  ghost predicate Threatened(s: State, end: int) {
    || (exists t :: t in s.inFlight && s.allowTimer != Some(t))
    || (exists t :: t in s.pending && s.allowTimer != Some(t) && s.pending[t] < end)
  }

  ghost predicate OnUntil(s: State, end: int) {
    s.discovering && s.allowExpiresAt == Some(end) && Inv(s) && !Threatened(s, end)
  }

  lemma StaysOnStep(s: State, step: Step, end: int)
    requires OnUntil(s, end) && Enabled(s, step) && LeftAlone([step])
    requires After(s, step).now < end
    ensures OnUntil(After(s, step), end)
  {
    StepKeeps(s, step);
    assert step in [step];
  }

  lemma {:induction false} TimeAdvances(s: State, steps: seq<Step>)
    requires RunFrom(s, steps).Some?
    ensures RunFrom(s, steps).value.now >= s.now
    decreases |steps|
  {
    if steps != [] { TimeAdvances(s, steps[..|steps| - 1]); }
  }

  /** An unthreatened grant that is left alone stays on, with its end unchanged, until that end. */
  lemma {:induction false} StaysOn(s: State, steps: seq<Step>, end: int)
    requires OnUntil(s, end) && LeftAlone(steps)
    requires RunFrom(s, steps).Some? && RunFrom(s, steps).value.now < end
    ensures OnUntil(RunFrom(s, steps).value, end)
    decreases |steps|
  {
    if steps != [] {
      var init, step := steps[..|steps| - 1], steps[|steps| - 1];
      assert step in steps && forall x <- init :: x in steps;
      var r := RunFrom(s, init).value;
      assert After(r, step).now >= r.now;
      StaysOn(s, init, end);
      StaysOnStep(r, step, end);
    }
  }

  lemma Then(s: State, steps: seq<Step>, step: Step)
    requires RunFrom(s, steps).Some? && Enabled(RunFrom(s, steps).value, step)
    ensures RunFrom(s, steps + [step]) == Some(After(RunFrom(s, steps).value, step))
  {
    assert (steps + [step])[..|steps|] == steps;
  }

  /** The steps that end a threatened grant early. */
  lemma EndedEarly(s: State) returns (steps: seq<Step>)
    requires Inv(s) && s.discovering && s.now < s.allowExpiresAt.value && Threatened(s, s.allowExpiresAt.value)
    ensures LeftAlone(steps) && RunFrom(s, steps).Some?
    ensures RunFrom(s, steps).value.now < s.allowExpiresAt.value && !RunFrom(s, steps).value.discovering
  {
    steps := [];
    var t: nat;
    if u: nat :| u in s.inFlight && s.allowTimer != Some(u) {
      t := u;
    } else {
      t :| t in s.pending && s.allowTimer != Some(t) && s.pending[t] < s.allowExpiresAt.value;
      if s.pending[t] > s.now {
        Then(s, steps, Pass(s.pending[t] - s.now)); steps := steps + [Pass(s.pending[t] - s.now)];
      }
      Then(s, steps, Fire(t)); steps := steps + [Fire(t)];
    }
    Then(s, steps, Complete(t, true)); steps := steps + [Complete(t, true)];
  }

  lemma LastsIffUnthreatened(s: State, end: int)
    requires Inv(s) && s.discovering && s.allowExpiresAt == Some(end) && s.now < end
    ensures !Threatened(s, end) <==>
            forall more | LeftAlone(more) && RunFrom(s, more).Some? && RunFrom(s, more).value.now < end ::
              RunFrom(s, more).value.discovering
  {
    if Threatened(s, end) {
      var more := EndedEarly(s);
    } else {
      forall more | LeftAlone(more) && RunFrom(s, more).Some? && RunFrom(s, more).value.now < end
        ensures RunFrom(s, more).value.discovering
      {
        StaysOn(s, more, end);
      }
    }
  }

  /**
   * After any run, a grant that is left alone lasts until its time plus its duration, whatever the timers do, exactly
   * when nothing threatens it: no other callback is under way, and no forgotten timer is due before then.
   */
  lemma LastsIff(start: int, steps: seq<Step>)
    requires RunFrom(Initial(start), steps).Some? && Granting(steps)
    requires Clock(start, steps) < GrantEnd(start, steps)
    ensures var s, end := RunFrom(Initial(start), steps).value, GrantEnd(start, steps);
            !Threatened(s, end) <==>
            forall more | LeftAlone(more) && RunFrom(s, more).Some? && RunFrom(s, more).value.now < end ::
              RunFrom(s, more).value.discovering
  {
    RunKeeps(Initial(start), steps);
    RunTells(start, steps);
    LastsIffUnthreatened(RunFrom(Initial(start), steps).value, GrantEnd(start, steps));
  }

  /** Runs in which no user disables discovery and none enables it while an expiry is being handled. */
  predicate Undisturbed(s: State, steps: seq<Step>)
    decreases |steps|
  {
    if steps == [] then true else
      var init, step := steps[..|steps| - 1], steps[|steps| - 1];
      && Undisturbed(s, init) && !(step.Disable? && step.denied)
      && (step.Enable? && RunFrom(s, init).Some? ==> RunFrom(s, init).value.inFlight == {})
  }

  /** In such runs discovery is on until the time of the latest permitted Enable plus its duration. */
  lemma {:induction false} UndisturbedGrantsLast(start: int, steps: seq<Step>)
    requires RunFrom(Initial(start), steps).Some? && Undisturbed(Initial(start), steps)
    ensures var s := RunFrom(Initial(start), steps).value;
            && (forall t :: t in s.pending || t in s.inFlight ==> s.allowTimer == Some(t))
            && (LatestGrant(start, steps).Some? && Clock(start, steps) < GrantEnd(start, steps) ==> s.discovering)
    decreases |steps|
  {
    RunKeeps(Initial(start), steps);
    RunTells(start, steps);
    if steps != [] {
      var init := steps[..|steps| - 1];
      RunKeeps(Initial(start), init);
      RunTells(start, init);
      UndisturbedGrantsLast(start, init);
    }
  }

  /** After a manual Disable the next grant is threatened by the timer that was forgotten. */
  lemma DisableLeavesThreat(start: int) returns (steps: seq<Step>)
    ensures RunFrom(Initial(start), steps).Some?
    ensures var s := RunFrom(Initial(start), steps).value;
            && s.discovering && s.inFlight == {}
            && LatestGrant(start, steps) == Some((start, 100)) && Threatened(s, start + 100)
  {
    steps := [];
    Then(Initial(start), steps, Enable(true, 10)); steps := steps + [Enable(true, 10)];
    Then(Initial(start), steps, Disable(true)); steps := steps + [Disable(true)];
    Then(Initial(start), steps, Enable(true, 100)); steps := steps + [Enable(true, 100)];
    RunKeeps(Initial(start), steps);
    var s := RunFrom(Initial(start), steps).value;
    assert 0 in s.pending && s.pending[0] == start + 10;
    assert steps[..2] == [Enable(true, 10), Disable(true)] && steps[..2][..1] == [Enable(true, 10)];
    assert Clock(start, steps[..2][..1]) == start;
  }
}
