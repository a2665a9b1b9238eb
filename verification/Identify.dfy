/**
 * The identify countdown: an end time in milliseconds, rewritten only when a report differs enough
 * (implcaps/zcl/identify/impl.go).
 */
module Identify {
  import opened Wrappers

  const MILLISECOND: int := 1_000_000
  const SECOND: int := 1000 * MILLISECOND
  const DEAD_BAND: int := 250 * MILLISECOND

  function AtLeastZero(d: int): int {
    if d < 0 then 0 else d
  }

  function Abs(d: int): int {
    if d < 0 then -d else d
  }

  /** A report of the seconds left, with the clock readings taken while it is handled. */
  datatype Report = Report(seconds: nat, first: int, second: int, third: int)

  predicate InOrder(r: Report) {
    r.first <= r.second <= r.third
  }

  function Duration(r: Report): int {
    r.seconds * SECOND
  }

  /** The remaining time that `Status` computes from the stored end; without one there is none. */
  function RemainingAt(end: Option<int>, now: int): int {
    if end.None? then 0 else AtLeastZero(end.value * MILLISECOND - now)
  }

  class Implementation {
    /** In milliseconds, as stored under "EndTime". */
    var endTime: Option<int>
    var lastChanged: Option<int>
    var lastUpdated: Option<int>

    constructor ()
      ensures endTime == lastChanged == lastUpdated == None
    {
      endTime, lastChanged, lastUpdated := None, None, None;
    }

    /** The end moves, and the change is noted, only when the report is outside the dead band. */
    method UpdateDuration(r: Report, fourth: int, fifth: int)
      modifies this
      ensures endTime == EndAfter(old(endTime), r)
      ensures lastChanged == if Moves(old(endTime), r) then Some(fourth / 1_000_000) else old(lastChanged)
      ensures lastUpdated == Some(fifth / 1_000_000)
    {
      var duration := r.seconds * SECOND;
      var currentEndTime := r.first;
      if endTime.Some? { currentEndTime := endTime.value * MILLISECOND; }
      var currentDuration := currentEndTime - r.second;
      if currentDuration < 0 { currentDuration := 0; }
      var diff := currentDuration - duration;
      if diff < 0 { diff := -diff; }
      if diff >= DEAD_BAND {
        endTime := Some((r.third + duration) / MILLISECOND);
        lastChanged := Some(fourth / MILLISECOND);
      }
      lastUpdated := Some(fifth / MILLISECOND);
    }

    method Status(now: int) returns (identifying: bool, remaining: int)
      ensures remaining == RemainingAt(endTime, now) && identifying == (remaining > 0)
      ensures remaining == if endTime.Some? && endTime.value * 1_000_000 > now
                           then endTime.value * 1_000_000 - now else 0
    {
      remaining := 0;
      if endTime.Some? {
        remaining := endTime.value * MILLISECOND - now;
        if remaining < 0 { remaining := 0; }
      }
      identifying := remaining > 0;
    }
  }

  /** Whether the report rewrites the stored end. */
  predicate Moves(end: Option<int>, r: Report) {
    var current := if end.Some? then end.value * MILLISECOND else r.first;
    Abs(AtLeastZero(current - r.second) - Duration(r)) >= DEAD_BAND
  }

  function EndAfter(end: Option<int>, r: Report): Option<int> {
    if Moves(end, r) then Some((r.third + Duration(r)) / MILLISECOND) else end
  }

  function EndAfterAll(end: Option<int>, reports: seq<Report>): Option<int>
    decreases |reports|
  {
    if reports == [] then end else EndAfter(EndAfterAll(end, reports[..|reports| - 1]), reports[|reports| - 1])
  }

  /** Counting down exactly from the time the report is taken to be about. */
  function Ideal(r: Report, anchor: int, now: int): int {
    AtLeastZero(anchor + Duration(r) - now)
  }

  /**
   * The reading that the remaining time is counted from: the one the new end is based on, or the one the old end
   * was compared at.
   */
  function Anchor(end: Option<int>, r: Report): int {
    if Moves(end, r) then r.third else r.second
  }

  /** Whatever end was stored before, the status is within the dead band of the report's countdown from then on. */
  lemma ReportWithin(end: Option<int>, r: Report, now: int)
    requires InOrder(r) && now >= r.second
    ensures Abs(RemainingAt(EndAfter(end, r), now) - Ideal(r, Anchor(end, r), now)) < DEAD_BAND
  {
    if Moves(end, r) {
      var exact := r.third + Duration(r);
      assert exact == (exact / MILLISECOND) * MILLISECOND + exact % MILLISECOND;
    }
  }

  /** Counting down the reported seconds exactly, from `anchor`, in nanoseconds. */
  function Countdown(r: Report, anchor: int, now: int): int {
    if anchor + r.seconds * 1_000_000_000 > now then anchor + r.seconds * 1_000_000_000 - now else 0
  }

  /** After any sequence of reports the status is within the dead band of the countdown of the latest one. */
  lemma StatusWithinDeadBand(end: Option<int>, reports: seq<Report>, now: int)
    requires reports != [] && InOrder(reports[|reports| - 1]) && now >= reports[|reports| - 1].third
    ensures var r, before := reports[|reports| - 1], EndAfterAll(end, reports[..|reports| - 1]);
            && (Anchor(before, r) == r.second || Anchor(before, r) == r.third)
            && var off := RemainingAt(EndAfterAll(end, reports), now) - Countdown(r, Anchor(before, r), now);
               -250_000_000 < off < 250_000_000
  {
    ReportWithin(EndAfterAll(end, reports[..|reports| - 1]), reports[|reports| - 1], now);
  }

  /** With one clock reading per report the countdown runs from that reading. */
  lemma StatusWithinDeadBandOfReading(end: Option<int>, reports: seq<Report>, t: int, now: int)
    requires reports != [] && now >= t
    requires var r := reports[|reports| - 1]; r.first == r.second == r.third == t
    ensures var off := RemainingAt(EndAfterAll(end, reports), now) - Countdown(reports[|reports| - 1], t, now);
            -250_000_000 < off < 250_000_000
  {
    StatusWithinDeadBand(end, reports, now);
  }

  /** A report moves the end exactly when it differs from what the status says at that time by the dead band or more. */
  lemma MovesIff(end: Option<int>, r: Report)
    requires InOrder(r)
    ensures Moves(end, r) <==>
            || RemainingAt(end, r.second) - r.seconds * 1_000_000_000 >= 250_000_000
            || r.seconds * 1_000_000_000 - RemainingAt(end, r.second) >= 250_000_000
  {
  }

  /** Handling the same report again at once changes nothing: a moved end is inside the dead band of its own report. */
  lemma RepeatMovesNothing(end: Option<int>, r: Report, t: int)
    requires r.first == r.second == r.third == t
    ensures EndAfter(EndAfter(end, r), r) == EndAfter(end, r)
  {
    ReportWithin(end, r, t);
    MovesIff(EndAfter(end, r), r);
  }

  /** The bound is reached up to one nanosecond: the dead band cannot be replaced by a smaller one. */
  lemma BoundIsTight() returns (end: Option<int>, r: Report, now: int)
    ensures InOrder(r) && now >= r.third
    ensures RemainingAt(EndAfter(end, r), now) - Countdown(r, Anchor(end, r), now) == 249_999_999
  {
    end, r := Some(1250), Report(1, 1, 1, 1);
    now := 1;
  }
}
