/**
 * The poller of an attribute monitor and its stop handshake, for one Attach or Load and one Detach
 * (attribute/monitor.go).
 */
module Poller {
  import opened Wrappers

  /** Attach or Load: registers the match and, if polling is configured, makes the ticker and then starts the poller. */
  datatype Attacher = Starting | MatchRegistered | TickerMade | Returned

  /** Detach: unregisters the match, looks at the ticker, and sends on the stop channel if there is one. */
  datatype Detacher = NotCalled | Unregistered | Sending | Detached(sent: bool)

  datatype Goroutine = NotStarted | Selecting | Reading | StopReceived | TickerCleared | Exited

  /** `waiting` counts the values in the stop channel, which has room for one. */
  datatype Monitor = Monitor(polling: bool, attach: Attacher, detach: Detacher, poller: Goroutine,
                             ticker: bool, tick: bool, waiting: nat, closes: nat)

  datatype Step =
    | RegisterMatch | MakeTicker | StartPoller | ReturnUnpolled
    | UnregisterMatch | LookAtTicker | SendStop
    | Tick | StartRead | EndRead | ReceiveStop | ClearTicker | CloseStop

  function Initial(polling: bool): Monitor {
    Monitor(polling, Starting, NotCalled, NotStarted, false, false, 0, 0)
  }

  /** The select of the poller waits for the stop or a tick; a send needs room in the channel. */
  predicate Enabled(m: Monitor, s: Step) {
    match s
    case RegisterMatch => m.attach.Starting?
    case MakeTicker => m.attach.MatchRegistered? && m.polling
    case StartPoller => m.attach.TickerMade?
    case ReturnUnpolled => m.attach.MatchRegistered? && !m.polling
    case UnregisterMatch => m.detach.NotCalled?
    case LookAtTicker => m.detach.Unregistered?
    case SendStop => m.detach.Sending? && m.waiting < 1
    case Tick => m.ticker
    case StartRead => m.poller.Selecting? && m.tick
    case EndRead => m.poller.Reading?
    case ReceiveStop => m.poller.Selecting? && m.waiting > 0
    case ClearTicker => m.poller.StopReceived?
    case CloseStop => m.poller.TickerCleared?
  }

  function After(m: Monitor, s: Step): Monitor
    requires Enabled(m, s)
  {
    match s
    case RegisterMatch => m.(attach := MatchRegistered)
    case MakeTicker => m.(attach := TickerMade, ticker := true)
    case StartPoller => m.(attach := Returned, poller := Selecting)
    case ReturnUnpolled => m.(attach := Returned)
    case UnregisterMatch => m.(detach := Unregistered)
    case LookAtTicker => m.(detach := if m.ticker then Sending else Detached(false))
    case SendStop => m.(detach := Detached(true), waiting := m.waiting + 1)
    case Tick => m.(tick := true)
    case StartRead => m.(poller := Reading, tick := false)
    case EndRead => m.(poller := Selecting)
    case ReceiveStop => m.(poller := StopReceived, waiting := m.waiting - 1)
    case ClearTicker => m.(poller := TickerCleared, ticker := false)
    case CloseStop => m.(poller := Exited, closes := m.closes + 1)
  }

  function Run(polling: bool, steps: seq<Step>): Option<Monitor>
    decreases |steps|
  {
    if steps == [] then Some(Initial(polling)) else
      var m, s := Run(polling, steps[..|steps| - 1]), steps[|steps| - 1];
      if m.Some? && Enabled(m.value, s) then Some(After(m.value, s)) else None
  }

  // ---- What every interleaving keeps ----

  /** The stop is where the two sides say it is: not sent, waiting in the channel, or received. */
  ghost predicate StopAccounted(m: Monitor) {
    && m.waiting == (if m.detach == Detached(true) && !Stopping(m.poller) then 1 else 0)
    && (Stopping(m.poller) ==> m.detach == Detached(true))
  }

  predicate Stopping(p: Goroutine) {
    p.StopReceived? || p.TickerCleared? || p.Exited?
  }

  /** The ticker exists exactly from its making until the poller clears it, so the poller never selects without one. */
  ghost predicate TickerAccounted(m: Monitor) {
    && (m.ticker <==> || m.attach.TickerMade?
                      || (m.polling && m.attach.Returned? && !m.poller.TickerCleared? && !m.poller.Exited?))
    && (m.poller.NotStarted? <==> !(m.polling && m.attach.Returned?))
    && (m.attach.TickerMade? ==> m.polling)
  }

  ghost predicate Inv(m: Monitor) {
    && StopAccounted(m) && TickerAccounted(m)
    && m.closes == (if m.poller.Exited? then 1 else 0)
    && (m.detach.Sending? || m.detach == Detached(true) ==> m.polling && (m.attach.TickerMade? || m.attach.Returned?))
  }

  lemma {:induction false} RunKeeps(polling: bool, steps: seq<Step>)
    requires Run(polling, steps).Some?
    ensures Inv(Run(polling, steps).value) && Run(polling, steps).value.polling == polling
    decreases |steps|
  {
    if steps != [] {
      RunKeeps(polling, steps[..|steps| - 1]);
    }
  }

  // ---- Main results ----

  /** Detach's send always finds room in a channel that is still open. */
  lemma SendNeverBlocks(polling: bool, steps: seq<Step>)
    requires Run(polling, steps).Some? && Run(polling, steps).value.detach.Sending?
    ensures Enabled(Run(polling, steps).value, SendStop) && Run(polling, steps).value.closes == 0
  {
    RunKeeps(polling, steps);
  }

  /**
   * The stop channel is closed at most once, only by a poller that received the stop, and nothing is left in it
   * then.
   */
  lemma ClosedAtMostOnce(polling: bool, steps: seq<Step>)
    requires Run(polling, steps).Some?
    ensures var m := Run(polling, steps).value;
            && m.closes <= 1
            && (m.closes == 1 ==> m.detach == Detached(true) && m.waiting == 0 && !m.ticker)
            && (Enabled(m, CloseStop) ==> m.closes == 0)
  {
    RunKeeps(polling, steps);
  }

  /** A sent stop is not lost: it waits in the channel until the poller, which still selects, receives it. */
  lemma StopNotLost(polling: bool, steps: seq<Step>)
    requires Run(polling, steps).Some? && Run(polling, steps).value.detach == Detached(true)
    ensures var m := Run(polling, steps).value;
            Stopping(m.poller) || (m.waiting == 1 && m.ticker && (m.poller.Selecting? ==> Enabled(m, ReceiveStop)))
  {
    RunKeeps(polling, steps);
  }

  // ---- When reads end ----

  /** One more step at the end of a continuation. */
  lemma Extend(polling: bool, steps: seq<Step>, more: seq<Step>, s: Step)
    requires Run(polling, steps + more).Some? && Enabled(Run(polling, steps + more).value, s)
    ensures Run(polling, steps + (more + [s])) == Some(After(Run(polling, steps + more).value, s))
  {
    assert steps + (more + [s]) == (steps + more) + [s];
    assert ((steps + more) + [s])[..|steps + more|] == steps + more;
  }

  /** What is settled stays settled: a stopping poller, a returned Detach, and whether it sent the stop. */
  lemma {:induction false} Settled(polling: bool, steps: seq<Step>, more: seq<Step>)
    requires Run(polling, steps + more).Some?
    ensures Run(polling, steps).Some?
    ensures var m, n := Run(polling, steps).value, Run(polling, steps + more).value;
            && (Stopping(m.poller) ==> Stopping(n.poller))
            && (m.detach.Detached? ==> n.detach == m.detach)
    decreases |more|
  {
    if more == [] {
      assert steps + more == steps;
    } else {
      var init := more[..|more| - 1];
      assert (steps + more)[..|steps + more| - 1] == steps + init;
      Settled(polling, steps, init);
      RunKeeps(polling, steps + init);
    }
  }

  /** Each step of a continuation was possible when it was taken. */
  lemma {:induction false} StepTaken(polling: bool, steps: seq<Step>, more: seq<Step>, j: nat)
    requires Run(polling, steps + more).Some? && j < |more|
    ensures Run(polling, steps + more[..j]).Some? && Enabled(Run(polling, steps + more[..j]).value, more[j])
    decreases |more|
  {
    var init := more[..|more| - 1];
    assert (steps + more)[..|steps + more| - 1] == steps + init;
    if j < |init| {
      assert init[..j] == more[..j];
      StepTaken(polling, steps, init, j);
    }
  }

  /** The continuation's last step starts a read. */
  ghost predicate EndsInRead(polling: bool, steps: seq<Step>, more: seq<Step>) {
    more != [] && more[|more| - 1].StartRead? && Run(polling, steps + more).Some?
  }

  /** In some continuation a read starts. */
  ghost predicate MayRead(polling: bool, steps: seq<Step>) {
    exists more: seq<Step> :: EndsInRead(polling, steps, more)
  }

  /** A continuation that lets the attacher finish and the poller read once more. */
  lemma ReadsAgain(polling: bool, steps: seq<Step>) returns (more: seq<Step>)
    requires Run(polling, steps).Some? && polling && !Stopping(Run(polling, steps).value.poller)
    ensures EndsInRead(polling, steps, more)
  {
    RunKeeps(polling, steps);
    more := [];
    assert steps + more == steps;
    if Run(polling, steps).value.attach.Starting? {
      Extend(polling, steps, more, RegisterMatch); more := more + [RegisterMatch];
    }
    if Run(polling, steps + more).value.attach.MatchRegistered? {
      Extend(polling, steps, more, MakeTicker); more := more + [MakeTicker];
    }
    if Run(polling, steps + more).value.attach.TickerMade? {
      Extend(polling, steps, more, StartPoller); more := more + [StartPoller];
    }
    if Run(polling, steps + more).value.poller.Reading? {
      Extend(polling, steps, more, EndRead); more := more + [EndRead];
    }
    Extend(polling, steps, more, Tick); more := more + [Tick];
    Extend(polling, steps, more, StartRead); more := more + [StartRead];
  }

  /**
   * At any time, before or after Detach, a read may still start exactly while polling is configured and no stop
   * was received.
   */
  lemma MayReadIff(polling: bool, steps: seq<Step>)
    requires Run(polling, steps).Some?
    ensures MayRead(polling, steps) <==> polling && !Stopping(Run(polling, steps).value.poller)
  {
    if polling && !Stopping(Run(polling, steps).value.poller) {
      var more := ReadsAgain(polling, steps);
      assert EndsInRead(polling, steps, more);
    }
    if more: seq<Step> :| EndsInRead(polling, steps, more) {
      var j := |more| - 1;
      StepTaken(polling, steps, more, j);
      RunKeeps(polling, steps + more[..j]);
      Settled(polling, steps, more[..j]);
    }
  }

  /** In some continuation a read starts after Detach has returned. */
  ghost predicate MayReadAfterDetach(polling: bool, steps: seq<Step>) {
    exists first: seq<Step> ::
      && Run(polling, steps + first).Some? && Run(polling, steps + first).value.detach.Detached?
      && MayRead(polling, steps + first)
  }

  /** The steps of an uninterrupted Detach. */
  lemma Detaches(polling: bool, steps: seq<Step>) returns (more: seq<Step>)
    requires Run(polling, steps).Some? && Run(polling, steps).value.detach.NotCalled?
    ensures Run(polling, steps + more).Some?
    ensures Run(polling, steps + more).value.detach == Detached(Run(polling, steps).value.ticker)
    ensures Run(polling, steps + more).value.poller == Run(polling, steps).value.poller
  {
    RunKeeps(polling, steps);
    more := [];
    assert steps + more == steps;
    Extend(polling, steps, more, UnregisterMatch); more := more + [UnregisterMatch];
    Extend(polling, steps, more, LookAtTicker); more := more + [LookAtTicker];
    if Run(polling, steps + more).value.detach.Sending? {
      Extend(polling, steps, more, SendStop); more := more + [SendStop];
    }
  }

  /**
   * What a caller can know before calling Detach: no read can follow its return exactly when polling is not
   * configured.
   */
  lemma QuietAfterDetachIff(polling: bool, steps: seq<Step>)
    requires Run(polling, steps).Some? && Run(polling, steps).value.detach.NotCalled?
    ensures !MayReadAfterDetach(polling, steps) <==> !polling
  {
    RunKeeps(polling, steps);
    if polling {
      var first := Detaches(polling, steps);
      MayReadIff(polling, steps + first);
      assert MayReadAfterDetach(polling, steps);
    }
    if first: seq<Step> :| Run(polling, steps + first).Some? && MayRead(polling, steps + first) {
      MayReadIff(polling, steps + first);
    }
  }

  // ---- When Detach sends the stop ----

  /**
   * Detach sends exactly when it looks while there is a ticker: after it was made, whether or not the poller runs
   * yet.
   */
  lemma DetachSendsIff(polling: bool, steps: seq<Step>)
    requires Run(polling, steps).Some? && Enabled(Run(polling, steps).value, LookAtTicker)
    ensures var m := Run(polling, steps).value;
            && (After(m, LookAtTicker).detach == Sending <==> m.ticker)
            && (After(m, LookAtTicker).detach == Detached(false) <==> !m.ticker)
            && (m.ticker <==> m.attach.TickerMade? || (polling && m.attach.Returned?))
  {
    RunKeeps(polling, steps);
  }

  /** Some continuation stops the poller. */
  ghost predicate MayStop(polling: bool, steps: seq<Step>) {
    exists more: seq<Step> :: Run(polling, steps + more).Some? && Stopping(Run(polling, steps + more).value.poller)
  }

  /**
   * After Detach has returned the poller can still stop, or has, exactly if the stop was sent; otherwise nothing
   * ever stops it.
   */
  lemma StopsIff(polling: bool, steps: seq<Step>)
    requires Run(polling, steps).Some? && Run(polling, steps).value.detach.Detached?
    ensures MayStop(polling, steps) <==> Run(polling, steps).value.detach.sent
  {
    RunKeeps(polling, steps);
    if Run(polling, steps).value.detach.sent {
      var more: seq<Step> := [];
      assert steps + more == steps;
      if !Stopping(Run(polling, steps).value.poller) {
        if Run(polling, steps + more).value.attach.TickerMade? {
          Extend(polling, steps, more, StartPoller); more := more + [StartPoller];
        }
        if Run(polling, steps + more).value.poller.Reading? {
          Extend(polling, steps, more, EndRead); more := more + [EndRead];
        }
        Extend(polling, steps, more, ReceiveStop); more := more + [ReceiveStop];
      }
      assert Stopping(Run(polling, steps + more).value.poller);
    }
    if more: seq<Step> :| Run(polling, steps + more).Some? && Stopping(Run(polling, steps + more).value.poller) {
      Settled(polling, steps, more);
      RunKeeps(polling, steps + more);
    }
  }

  /** Once the poller has received the stop, no read starts any more. */
  lemma NoReadAfterStop(polling: bool, steps: seq<Step>, i: nat, j: nat)
    requires Run(polling, steps).Some? && i < j < |steps| && steps[i].ReceiveStop?
    ensures !steps[j].StartRead?
  {
    assert [] + steps == steps && [] + steps[..j] == steps[..j];
    StepTaken(polling, [], steps, j);
    StaysStopping(polling, steps[..j], i);
  }

  lemma {:induction false} StaysStopping(polling: bool, steps: seq<Step>, i: nat)
    requires Run(polling, steps).Some? && i < |steps| && steps[i].ReceiveStop?
    ensures Stopping(Run(polling, steps).value.poller)
    decreases |steps|
  {
    var init := steps[..|steps| - 1];
    if i < |init| {
      assert init[i] == steps[i];
      StaysStopping(polling, init, i);
      RunKeeps(polling, init);
    }
  }

  lemma Then(polling: bool, steps: seq<Step>, s: Step)
    requires Run(polling, steps).Some? && Enabled(Run(polling, steps).value, s)
    ensures Run(polling, steps + [s]) == Some(After(Run(polling, steps).value, s))
  {
    assert (steps + [s])[..|steps|] == steps;
  }

  /** Returning from Detach does not yet stop reads: with a tick waiting, the poller may still choose to read first. */
  lemma ReadMayFollowDetach() returns (steps: seq<Step>, i: nat, j: nat)
    ensures Run(true, steps).Some? && i < j < |steps| && steps[i].SendStop? && steps[j].StartRead?
  {
    steps := [];
    Then(true, steps, RegisterMatch); steps := steps + [RegisterMatch];
    Then(true, steps, MakeTicker); steps := steps + [MakeTicker];
    Then(true, steps, StartPoller); steps := steps + [StartPoller];
    Then(true, steps, Tick); steps := steps + [Tick];
    Then(true, steps, UnregisterMatch); steps := steps + [UnregisterMatch];
    Then(true, steps, LookAtTicker); steps := steps + [LookAtTicker];
    Then(true, steps, SendStop); steps := steps + [SendStop];
    Then(true, steps, StartRead); steps := steps + [StartRead];
    i, j := 6, 7;
  }

  /**
   * A Detach that looks before the ticker is made sends nothing, and the poller that starts afterwards is never
   * stopped.
   */
  lemma DetachMayMissPoller() returns (steps: seq<Step>)
    ensures Run(true, steps).Some? && Run(true, steps).value.detach == Detached(false)
    ensures Run(true, steps).value.poller.Selecting? && !MayStop(true, steps)
  {
    steps := [];
    Then(true, steps, RegisterMatch); steps := steps + [RegisterMatch];
    Then(true, steps, UnregisterMatch); steps := steps + [UnregisterMatch];
    Then(true, steps, LookAtTicker); steps := steps + [LookAtTicker];
    Then(true, steps, MakeTicker); steps := steps + [MakeTicker];
    Then(true, steps, StartPoller); steps := steps + [StartPoller];
    StopsIff(true, steps);
  }
}
