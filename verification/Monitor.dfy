/**
 * An attribute monitor's configuration: what Attach sets up, what it stores, and what Load sets up again
 * (attribute/monitor.go).
 */
module Monitor {
  import opened Wrappers
  import opened Keys

  type Short = n: nat | n < 0x1_0000

  const MILLISECOND: int := 1_000_000
  const DEFAULT_INTERVAL: int := 5 * 60 * 1000 * MILLISECOND

  datatype PollingMode = PollIfReportingFailed | AlwaysPoll | NeverPoll

  /** What became of the reporting: not wanted, configured, or refused by the binding or the device. */
  datatype Reporting = NotAttempted | Configured | Refused

  /** The addresses `transmissionLookup` gives for the device. */
  datatype Route = Route(ieee: Ieee, localEndpoint: Byte)

  /** Which attribute is watched, at which remote endpoint. */
  datatype Target = Target(remoteEndpoint: Byte, cluster: Short, attribute: Short, dataType: Byte)

  /** The monitor's section; intervals are stored in milliseconds. */
  datatype Config = Config(remoteEndpoint: Option<Byte>, cluster: Option<Short>, attribute: Option<Short>,
                           dataType: Option<Byte>, reportingConfigured: Option<bool>,
                           pollingConfigured: Option<bool>, pollingInterval: Option<int>)

  datatype Result = Ok | Failed | Panicked

  datatype Message = Message(source: Ieee, sourceEndpoint: Byte, destinationEndpoint: Byte, serverToClient: bool,
                             cluster: Short)

  /** A report's or a read response's records; a report carries no status, which reads as 0. */
  datatype Record = Record(attribute: Short, dataType: Byte, value: int, status: Byte)
  datatype Command =
    | ReportAttributes(records: seq<Record>)
    | ReadAttributesResponse(records: seq<Record>)
    | OtherCommand

  /** Go's integer division, which truncates towards zero. */
  function Truncate(n: int, d: int): int
    requires d > 0
  {
    if n >= 0 then n / d else -((-n) / d)
  }

  // ---- What a section says ----

  /** The watched attribute, if all four keys are there. */
  function TargetOf(c: Config): Option<Target> {
    if c.remoteEndpoint.Some? && c.cluster.Some? && c.attribute.Some? && c.dataType.Some?
    then Some(Target(c.remoteEndpoint.value, c.cluster.value, c.attribute.value, c.dataType.value))
    else None
  }

  /** The interval to poll at, in nanoseconds, if polling is configured. */
  function IntervalOf(c: Config): Option<int> {
    if c.pollingConfigured != Some(true) then None
    else if c.pollingInterval.Some? then Some(c.pollingInterval.value * MILLISECOND)
    else Some(DEFAULT_INTERVAL)
  }

  /** The section once Attach has stored its decisions. */
  function Stored(c: Config, t: Target, reporting: Reporting, mode: PollingMode, interval: int): Config {
    Config(Some(t.remoteEndpoint), Some(t.cluster), Some(t.attribute), Some(t.dataType),
           if reporting.Configured? then Some(true) else c.reportingConfigured,
           if mode.AlwaysPoll? || (mode.PollIfReportingFailed? && reporting.Refused?)
           then Some(true) else c.pollingConfigured,
           if mode.AlwaysPoll? || (mode.PollIfReportingFailed? && reporting.Refused?)
           then Some(Truncate(interval, MILLISECOND)) else c.pollingInterval)
  }

  /** How a start ends that polls as this section says: a ticker cannot have an interval that is not positive. */
  function StartResult(c: Config): Result {
    if IntervalOf(c).Some? && IntervalOf(c).value <= 0 then Panicked else Ok
  }

  /** `zclFilter` for a target behind a route. */
  predicate Accepts(r: Route, t: Target, m: Message) {
    m.source == r.ieee && m.sourceEndpoint == t.remoteEndpoint && m.destinationEndpoint == r.localEndpoint
    && m.serverToClient && m.cluster == t.cluster
  }

  /** The record is the watched attribute with its type, and was read successfully. */
  predicate Wanted(t: Target, r: Record, checked: bool) {
    (checked ==> r.status == 0) && r.attribute == t.attribute && r.dataType == t.dataType
  }

  /** The values handed to the callback: those of the wanted records, in their order. */
  function Delivered(t: Target, rs: seq<Record>, checked: bool): seq<int>
    decreases |rs|
  {
    if rs == [] then [] else
      var init := Delivered(t, rs[..|rs| - 1], checked);
      if Wanted(t, rs[|rs| - 1], checked) then init + [rs[|rs| - 1].value] else init
  }

  class Monitor {
    var config: Config
    var route: Route
    var target: Target
    var matching: bool
    /** The ticker's interval, once there is one. */
    var ticker: Option<int>

    /** `NewMonitor` and `Init`. */
    constructor (section: Config)
      ensures config == section && !matching && ticker == None
    {
      config, matching, ticker := section, false, None;
      route, target := Route(0, 0), Target(0, 0, 0, 0);
    }

    /** The monitor runs as its section says. */
    ghost predicate RunsAsStored()
      reads this
    {
      matching && TargetOf(config) == Some(target) && ticker == IntervalOf(config)
    }

    method Reattach() returns (r: Result)
      requires ticker == None
      modifies this`matching, this`ticker
      ensures matching && r == StartResult(config)
      ensures ticker == if r.Ok? then IntervalOf(config) else None
    {
      matching := true;
      if config.pollingConfigured == Some(true) {
        var duration := DEFAULT_INTERVAL;
        if config.pollingInterval.Some? { duration := config.pollingInterval.value * MILLISECOND; }
        if duration <= 0 { return Panicked; }
        ticker := Some(duration);
      }
      return Ok;
    }

    /**
     * Fails only when reporting was refused and polling is not allowed; whatever succeeded runs as its section
     * says.
     */
    method Attach(lookup: Route, t: Target, reporting: Reporting, mode: PollingMode, interval: int) returns (r: Result)
      requires ticker == None
      modifies this
      ensures route == lookup && target == t
      ensures config == Stored(old(config), t, reporting, mode, interval)
      ensures r.Failed? ==> matching == old(matching) && ticker == None
      ensures config.remoteEndpoint == Some(t.remoteEndpoint) && config.cluster == Some(t.cluster)
      ensures config.attribute == Some(t.attribute) && config.dataType == Some(t.dataType)
      ensures !mode.AlwaysPoll? && (!reporting.Refused? || mode.NeverPoll?) ==>
                && config.pollingConfigured == old(config.pollingConfigured)
                && config.pollingInterval == old(config.pollingInterval)
                && (old(config.pollingConfigured) != Some(true) ==> ticker == None)
      ensures mode.AlwaysPoll? || (reporting.Refused? && mode.PollIfReportingFailed?) ==>
                && config.pollingConfigured == Some(true)
                && (r.Ok? <==> interval >= 1_000_000)
                && (r.Ok? ==> ticker == Some((interval / 1_000_000) * 1_000_000))
      ensures r == if reporting.Refused? && mode.NeverPoll? then Failed else StartResult(config)
      ensures r.Ok? ==> RunsAsStored()
    {
      route, target := lookup, t;
      config := config.(remoteEndpoint := Some(t.remoteEndpoint));
      config := config.(cluster := Some(t.cluster));
      config := config.(attribute := Some(t.attribute));
      config := config.(dataType := Some(t.dataType));
      if reporting.Configured? { config := config.(reportingConfigured := Some(true)); }
      if (reporting.Refused? && mode.PollIfReportingFailed?) || mode.AlwaysPoll? {
        config := config.(pollingConfigured := Some(true));
        config := config.(pollingInterval := Some(Truncate(interval, MILLISECOND)));
      } else if reporting.Refused? && mode.NeverPoll? {
        return Failed;
      }
      r := Reattach();
    }

    /** Fails exactly when a key is missing, and changes nothing in the section. */
    method Load(lookup: Route) returns (r: Result)
      requires ticker == None
      modifies this`route, this`target, this`matching, this`ticker
      ensures route == lookup
      ensures r == if TargetOf(config).None? then Failed else StartResult(config)
      ensures r.Failed? <==> || config.remoteEndpoint == None || config.cluster == None
                             || config.attribute == None || config.dataType == None
      ensures r.Ok? ==> RunsAsStored()
      ensures r.Ok? ==> && config.remoteEndpoint == Some(target.remoteEndpoint)
                        && config.cluster == Some(target.cluster)
                        && config.attribute == Some(target.attribute) && config.dataType == Some(target.dataType)
      ensures r.Ok? ==>
                ticker == if config.pollingConfigured != Some(true) then None
                          else if config.pollingInterval == None then Some(300_000_000_000)
                          else Some(config.pollingInterval.value * 1_000_000)
    {
      route := lookup;
      if config.remoteEndpoint.None? { return Failed; }
      target := target.(remoteEndpoint := config.remoteEndpoint.value);
      if config.cluster.None? { return Failed; }
      target := target.(cluster := config.cluster.value);
      if config.attribute.None? { return Failed; }
      target := target.(attribute := config.attribute.value);
      if config.dataType.None? { return Failed; }
      target := target.(dataType := config.dataType.value);
      r := Reattach();
    }

    /** Unregisters the match; unconfiguring also undoes the reporting and forgets both configurations. */
    method Detach(unconfigure: bool) returns (undone: bool)
      modifies this`matching, this`config
      ensures !matching
      ensures undone == (unconfigure && old(config.reportingConfigured) == Some(true))
      ensures config == if unconfigure then old(config).(reportingConfigured := None, pollingConfigured := None)
                        else old(config)
    {
      matching := false;
      undone := false;
      if unconfigure {
        undone := config.reportingConfigured == Some(true);
        config := config.(reportingConfigured := None);
        config := config.(pollingConfigured := None);
      }
    }

    /** `zclMessage`. */
    method ZclMessage(c: Command) returns (values: seq<int>)
      ensures values == match c
                        case ReportAttributes(rs) => Delivered(target, rs, false)
                        case ReadAttributesResponse(rs) => Delivered(target, rs, true)
                        case OtherCommand => []
    {
      match c {
        case ReportAttributes(rs) => values := Deliver(rs, false);
        case ReadAttributesResponse(rs) => values := Deliver(rs, true);
        case OtherCommand => values := [];
      }
    }

    method Deliver(rs: seq<Record>, checked: bool) returns (values: seq<int>)
      ensures values == Delivered(target, rs, checked)
    {
      values := [];
      for k := 0 to |rs|
        invariant values == Delivered(target, rs[..k], checked)
      {
        assert rs[..k + 1][..k] == rs[..k];
        if rs[k].attribute == target.attribute && rs[k].dataType == target.dataType && (checked ==> rs[k].status == 0) {
          values := values + [rs[k].value];
        }
      }
      assert rs[..|rs|] == rs;
    }
  }

  /**
   * After a successful Attach, a fresh monitor's Load of the section accepts the same messages, those of the
   * attribute's endpoint and cluster from the device to the gateway's endpoint, and polls at the same interval.
   */
  method AttachThenLoad(section: Config, lookup: Route, t: Target, reporting: Reporting, mode: PollingMode,
                        interval: int)
    returns (first: Monitor, second: Monitor, r: Result, s: Result)
    ensures fresh(first) && fresh(second) && second.config == first.config
    ensures r.Ok? ==> s.Ok? && second.ticker == first.ticker
    ensures r.Ok? ==> forall m ::
              && (Accepts(first.route, first.target, m) <==> Accepts(second.route, second.target, m))
              && (Accepts(second.route, second.target, m) <==>
                    && m.source == lookup.ieee && m.sourceEndpoint == t.remoteEndpoint
                    && m.destinationEndpoint == lookup.localEndpoint && m.serverToClient && m.cluster == t.cluster)
    ensures r.Ok? ==> forall rs, checked ::
                        Delivered(second.target, rs, checked) == Delivered(first.target, rs, checked)
    ensures r.Failed? ==> !first.matching && first.ticker == None
  {
    first := new Monitor(section);
    r := first.Attach(lookup, t, reporting, mode, interval);
    second := new Monitor(first.config);
    s := second.Load(lookup);
  }

  /**
   * A monitor that was detached with unconfiguring does not poll when its section is loaded again; otherwise it
   * does as before.
   */
  method DetachThenLoad(first: Monitor, lookup: Route, unconfigure: bool) returns (second: Monitor, s: Result)
    requires first.RunsAsStored()
    modifies first
    ensures s.Ok? ==> second.ticker == if unconfigure then None else old(first.ticker)
    ensures s.Ok? ==> second.target == old(first.target)
  {
    var undone := first.Detach(unconfigure);
    second := new Monitor(first.config);
    s := second.Load(lookup);
  }

  /**
   * An Attach configures polling, at its interval cut to milliseconds, exactly when it always polls or reporting was
   * refused and it polls then; any other leaves the section's polling as it was.
   */
  lemma PollsIff(c: Config, t: Target, reporting: Reporting, mode: PollingMode, interval: int)
    ensures var after := Stored(c, t, reporting, mode, interval);
            if mode == AlwaysPoll || (mode == PollIfReportingFailed && reporting == Refused)
            then && after.pollingConfigured == Some(true)
                 && (interval >= 0 ==> IntervalOf(after) == Some((interval / 1_000_000) * 1_000_000))
                 && (interval < 0 ==> IntervalOf(after) == Some(-((-interval / 1_000_000) * 1_000_000)))
            else after.pollingConfigured == c.pollingConfigured && IntervalOf(after) == IntervalOf(c)
  {
  }

  /** A polling Attach starts exactly when its interval is at least a millisecond. */
  lemma StartsIff(c: Config, t: Target, reporting: Reporting, mode: PollingMode, interval: int)
    requires mode == AlwaysPoll || (mode == PollIfReportingFailed && reporting == Refused)
    ensures StartResult(Stored(c, t, reporting, mode, interval)).Ok? <==> interval >= 1_000_000
  {
  }

  /** The record is of the attribute and type, and in a read response its status is success. */
  ghost predicate Hit(t: Target, rs: seq<Record>, checked: bool, k: int) {
    && 0 <= k < |rs| && rs[k].attribute == t.attribute && rs[k].dataType == t.dataType
    && (checked ==> rs[k].status == 0)
  }

  /** The places of the hits, in order, one for each delivery and with its value. */
  ghost predicate Places(t: Target, rs: seq<Record>, checked: bool, values: seq<int>, ks: seq<int>) {
    && |ks| == |values|
    && (forall j | 0 <= j < |ks| :: Hit(t, rs, checked, ks[j]) && values[j] == rs[ks[j]].value)
    && (forall i, j | 0 <= i < j < |ks| :: ks[i] < ks[j])
    && (forall k :: Hit(t, rs, checked, k) ==> k in ks)
  }

  lemma HitInit(t: Target, rs: seq<Record>, checked: bool, k: int)
    requires rs != []
    ensures Hit(t, rs, checked, k) <==>
            Hit(t, rs[..|rs| - 1], checked, k) || (k == |rs| - 1 && Wanted(t, rs[k], checked))
  {
    if 0 <= k < |rs| - 1 { assert rs[..|rs| - 1][k] == rs[k]; }
  }

  lemma PlacesMore(t: Target, rs: seq<Record>, checked: bool, values: seq<int>, ks: seq<int>)
    requires rs != [] && Places(t, rs[..|rs| - 1], checked, values, ks)
    ensures var last := |rs| - 1;
            if Wanted(t, rs[last], checked) then Places(t, rs, checked, values + [rs[last].value], ks + [last])
            else Places(t, rs, checked, values, ks)
  {
    var init, last := rs[..|rs| - 1], |rs| - 1;
    forall j | 0 <= j < |ks| ensures Hit(t, rs, checked, ks[j]) && ks[j] < last && rs[ks[j]] == init[ks[j]] {
      assert Hit(t, init, checked, ks[j]);
      HitInit(t, rs, checked, ks[j]);
    }
    forall k | Hit(t, rs, checked, k) ensures k in ks || (k == last && Wanted(t, rs[last], checked)) {
      HitInit(t, rs, checked, k);
    }
    if Wanted(t, rs[last], checked) { HitInit(t, rs, checked, last); }
  }

  /**
   * The deliveries are the values of exactly the records of the attribute and type, in a read response those read
   * successfully, once each and in their order; `ks` are the records' places.
   */
  lemma {:induction false} DeliversExactly(t: Target, rs: seq<Record>, checked: bool) returns (ks: seq<int>)
    ensures |ks| == |Delivered(t, rs, checked)|
    ensures forall j | 0 <= j < |ks| :: Hit(t, rs, checked, ks[j]) && Delivered(t, rs, checked)[j] == rs[ks[j]].value
    ensures forall i, j | 0 <= i < j < |ks| :: ks[i] < ks[j]
    ensures forall k :: Hit(t, rs, checked, k) ==> k in ks
    ensures Places(t, rs, checked, Delivered(t, rs, checked), ks)
    decreases |rs|
  {
    if rs == [] {
      ks := [];
    } else {
      ks := DeliversExactly(t, rs[..|rs| - 1], checked);
      PlacesMore(t, rs, checked, Delivered(t, rs[..|rs| - 1], checked), ks);
      if Wanted(t, rs[|rs| - 1], checked) { ks := ks + [|rs| - 1]; }
    }
  }
}
