/**
 * The metric request pipeline: ZabbixDB.get_monitoring_Status and
 * ZabbixDB.get_metric_data. Every database answer, the connection state and
 * the current time come in through an `Env`.
 */
module MetricData {
  import opened Wrappers
  import opened Stats
  import opened Durations
  import opened Routing
  import opened Tables

  /** What the host query returns: a row with its status, no row, or a driver error. */
  datatype HostQuery = HostFound(hostid: int, host: string, status: int) | NoHost | HostQueryError(detail: string)

  /**
   * What get_monitoring_Status gives back: 0 or 1, a RuntimeError object it
   * returns instead of raising, or a TypeError it raises when no host row
   * exists (it subscripts None).
   */
  datatype Monitoring = StatusCode(code: int) | ReturnedError(message: string) | RaisedTypeError

  /** The collaborators of one request. */
  datatype Env = Env(
    connected: bool,                       // the connection is established
    now: real,                             // datetime.now().timestamp()
    hostQuery: string -> HostQuery,        // the host status query, by host name
    itemQuery: (string, string) -> ItemQuery,  // the item query, by host name and item name
    run: Query -> DbReply)                 // the history and trends queries

  function GetMonitoringStatus(connected: bool, q: HostQuery): (m: Monitoring)
    ensures m == StatusCode(1) <==> connected && q.HostFound? && q.status == 1
    ensures m == StatusCode(0) <==> connected && q.HostFound? && q.status != 1
    ensures m == RaisedTypeError <==> connected && q == NoHost
    ensures !connected ==> m == ReturnedError("Database connection not established")
    ensures connected && q.HostQueryError? ==> m == ReturnedError("Query failed: " + q.detail)
  {
    if !connected then ReturnedError("Database connection not established")
    else
      match q
      case HostFound(_, _, status) => if status != 1 then StatusCode(0) else StatusCode(1)
      case NoHost => RaisedTypeError
      case HostQueryError(e) => ReturnedError("Query failed: " + e)
  }

  /**
   * The exceptions that escape get_metric_data. In Python StatisticsError is
   * a subclass of ValueError; ValueError here stands only for the two
   * ValueErrors compute_statistic raises itself ("Data list is empty." and
   * "Unsupported operation: ...").
   */
  datatype Exception =
    | TypeError                         // None subscripted, a non-list iterated, list + str
    | KeyError(key: string)             // a route label with no fetch function
    | RuntimeError(error: LookupError)  // raised by get_item_detail
    | ValueError(message: string)       // raised by compute_statistic
    | StatisticsError                   // stdev of a single value

  /** The messages get_metric_data reports. */
  datatype Message =
    | InvalidTimeRange
    | ItemNotFound(metricName: string, hostname: string)
    | HostDisabled(hostname: string)
    | ItemDisabled(metricName: string)
    | NoHistoryTable(metricName: string, valueType: int)
    | InvalidStatistic(stat: string)

  /** The `data` of a success dictionary. */
  datatype Data =
    | SampleRows(rows: seq<Sample>)   // raw rows, or [] when nothing was fetched
    | Statistic(value: StatValue)     // what compute_statistic returned
    | Text(text: string)              // a message string a fetch method returned
    | ErrorObject(detail: string)     // a RuntimeError object a fetch method returned

  /**
   * The result shapes of get_metric_data. PlainText is a bare string;
   * ErrorDict is the dictionary _error_response builds (status "error",
   * data []); SuccessDict is the status "success" dictionary; Raised is an
   * exception that leaves the method.
   */
  datatype MetricResponse =
    | PlainText(message: Message)
    | ErrorDict(message: Message, hostname: string, metricName: string, unit: string, stat: Option<string>)
    | SuccessDict(hostname: string, metricName: string, unit: string, data: Data, stat: Option<string>)
    | Raised(exception: Exception)

  /** What a fetch function of the dispatch table produces. */
  datatype Outcome = Produced(data: Data) | Threw(exception: Exception)

  /** The statistic names get_metric_data accepts. */
  const ValidStats: set<string> :=
    {"min", "max", "mean", "median", "stdev", "sum", "count", "range", "mad", "last", "avg"}

  /** History tables of non-numeric items: routed to history, statistics other than last dropped. */
  const TextTables: set<string> := {"history_str", "history_log", "history_text"}

  /** Python truthiness of the optional statistic: None and "" are false. */
  predicate StatGiven(stat: Option<string>)
  {
    stat.Some? && stat.value != ""
  }

  /** Python truthiness of what a fetch method returned. */
  predicate Truthy(f: Fetch)
  {
    match f
    case Fetched(rows) => rows != []
    case Refused(message) => message != ""
    case Failed(_) => true
  }

  /** `fetch() or []` returned as data. */
  function RawData(f: Fetch): Data
  {
    match f
    case Fetched(rows) => SampleRows(rows)
    case Refused(message) => if message == "" then SampleRows([]) else Text(message)
    case Failed(detail) => ErrorObject(detail)
  }

  /** The exception or value of compute_statistic as get_metric_data sees it. */
  function StatisticOutcome(r: StatResult): Outcome
  {
    match r
    case Ok(v) => Produced(Statistic(v))
    case Err(EmptyData) => Threw(ValueError("Data list is empty."))
    case Err(Unsupported(op)) => Threw(ValueError("Unsupported operation: " + op))
    case Err(TooFewForStdev) => Threw(StatisticsError)
  }

  /** fetch_history_with_stats / fetch_trends_with_stats. */
  function WithStatistic(f: Fetch, op: string): Outcome
  {
    if !Truthy(f) then Produced(SampleRows([]))
    else
      match f
      case Fetched(rows) => StatisticOutcome(ComputeStatistic(rows, op))
      case _ => Threw(TypeError)  // compute_statistic iterates a string or an exception object
  }

  /** `(history_data or []) + (trend_data or [])`: lists concatenate, two strings too, anything else is a TypeError. */
  function Combine(h: Fetch, t: Fetch): (c: Option<Fetch>)
    ensures h.Fetched? && t.Fetched? ==> c == Some(Fetched(h.rows + t.rows))
    ensures h.Failed? || t.Failed? ==> c == None
    ensures c.Some? && c.value.Fetched? && (Truthy(h) || Truthy(t)) ==> c.value.rows != []
  {
    var h' := if Truthy(h) then h else Fetched([]);
    var t' := if Truthy(t) then t else Fetched([]);
    if h'.Fetched? && t'.Fetched? then Some(Fetched(h'.rows + t'.rows))
    else if h'.Refused? && t'.Refused? then Some(Refused(h'.message + t'.message))
    else None
  }

  /** fetch_both_raw. */
  function BothRaw(h: Fetch, t: Fetch): Outcome
  {
    match Combine(h, t)
    case None => Threw(TypeError)
    case Some(f) => Produced(RawData(f))
  }

  /** fetch_both_with_stats. */
  function BothWithStatistic(h: Fetch, t: Fetch, op: string): Outcome
  {
    if !Truthy(h) && !Truthy(t) then Produced(SampleRows([]))
    else
      match Combine(h, t)
      case Some(Fetched(rows)) => StatisticOutcome(ComputeStatistic(rows, op))
      case _ => Threw(TypeError)
  }

  function HistoryFetch(env: Env, item: ItemDetail, timeFrom: int, timeTo: int): Fetch
  {
    GetHistoryData(env.connected, env.run, item.row.itemid, timeFrom, timeTo, item.historyTable)
  }

  function TrendsFetch(env: Env, item: ItemDetail, timeFrom: int, timeTo: int, stat: Option<string>): Fetch
  {
    GetTrendData(env.connected, env.run, item.row.itemid, timeFrom, timeTo, item.trendsTable, stat)
  }

  /** `fetch_func[function_name]()`: the two labels without an entry raise KeyError. */
  function Dispatch(env: Env, item: ItemDetail, timeFrom: int, timeTo: int, route: Route, stat: Option<string>): Outcome
  {
    match route
    case TooOld => Threw(KeyError(Label(TooOld)))
    case InvalidRange => Threw(KeyError(Label(InvalidRange)))
    case History =>
      var h := HistoryFetch(env, item, timeFrom, timeTo);
      if StatGiven(stat) then WithStatistic(h, stat.value) else Produced(RawData(h))
    case Trends =>
      var t := TrendsFetch(env, item, timeFrom, timeTo, stat);
      if StatGiven(stat) then WithStatistic(t, stat.value) else Produced(RawData(t))
    case TrendsAndHistory =>
      var h := HistoryFetch(env, item, timeFrom, timeTo);
      var t := TrendsFetch(env, item, timeFrom, timeTo, stat);
      if StatGiven(stat) then BothWithStatistic(h, t, stat.value) else BothRaw(h, t)
  }

  /** The route of an item: non-numeric tables go to history, the others by their retention. */
  function RouteOf(now: real, item: ItemDetail, timeFrom: int, timeTo: int): (r: Route)
    ensures item.historyTable in TextTables ==> r == History
    ensures item.historyTable !in TextTables ==>
              (r == TooOld <==> timeTo < Threshold(now, RoundHundredths(DayCount(item.row.trends))))
    ensures item.historyTable !in TextTables ==>
              r == GetFunctionName(timeFrom, timeTo,
                                   Threshold(now, RoundHundredths(DayCount(item.row.history))),
                                   Threshold(now, RoundHundredths(DayCount(item.row.trends))))
  {
    if item.historyTable in TextTables then History
    else
      GetFunctionName(timeFrom, timeTo,
                      Threshold(now, RoundHundredths(DayCount(item.row.history))),
                      Threshold(now, RoundHundredths(DayCount(item.row.trends))))
  }

  /** The statistic after line 402: non-numeric tables keep only `last`. */
  function EffectiveStat(item: ItemDetail, stat: Option<string>): (measure: Option<string>)
    ensures item.historyTable !in TextTables ==> measure == stat
    ensures item.historyTable in TextTables ==> (measure.Some? <==> stat == Some("last")) && measure in {None, stat}
  {
    if item.historyTable in TextTables then (if stat == Some("last") then stat else None) else stat
  }

  /** The part of get_metric_data after the enabled checks: statistic validation, then dispatch. */
  function Serve(env: Env, hostname: string, metricName: string, item: ItemDetail, timeFrom: int, timeTo: int,
                 stat: Option<string>): MetricResponse
  {
    var route := RouteOf(env.now, item, timeFrom, timeTo);
    var measure := EffectiveStat(item, stat);
    if StatGiven(measure) && measure.value !in ValidStats then
      ErrorDict(InvalidStatistic(measure.value), hostname, metricName, item.row.units, measure)
    else
      match Dispatch(env, item, timeFrom, timeTo, route, measure)
      case Threw(e) => Raised(e)
      case Produced(d) => SuccessDict(hostname, metricName, item.row.units, d, measure)
  }

  /**
   * get_metric_data: range check, host status (whose lookup runs first),
   * item lookup, item found, host enabled, item enabled, history table
   * present, then routing and dispatch.
   */
  function GetMetricData(env: Env, hostname: string, metricName: string, timeFrom: int, timeTo: int,
                         stat: Option<string>): (r: MetricResponse)
    ensures timeFrom > timeTo <==> r == PlainText(InvalidTimeRange)
  {
    if timeFrom > timeTo then PlainText(InvalidTimeRange)
    else
      var monitoring := GetMonitoringStatus(env.connected, env.hostQuery(hostname));
      if monitoring == RaisedTypeError then Raised(TypeError)
      else
        match GetItemDetail(env.connected, env.itemQuery(hostname, metricName), metricName)
        case LookupRaised(e) => Raised(RuntimeError(e))
        case NoDetail => PlainText(ItemNotFound(metricName, hostname))
        case Detail(item) =>
          if monitoring == StatusCode(1) then
            ErrorDict(HostDisabled(hostname), hostname, metricName, "unknown", None)
          else if item.row.status != 0 then
            ErrorDict(ItemDisabled(metricName), hostname, metricName, item.row.units, None)
          else if item.historyTable == "" then
            PlainText(NoHistoryTable(metricName, item.row.valueType))
          else
            Serve(env, hostname, metricName, item, timeFrom, timeTo, stat)
  }

  // Properties of get_metric_data

  /** The item detail get_item_detail builds from a row with a known value_type. */
  function DetailOf(row: ItemRow): (item: ItemDetail)
    requires TableMapping(row.valueType).Some?
    ensures item.row == row && item.historyTable in HistoryTables
  {
    var names := TableMapping(row.valueType).value;
    ItemDetail(row, names.history, names.trends)
  }

  /** The request passes every check before routing: host enabled, item found, known and enabled. */
  predicate Serving(env: Env, hostname: string, metricName: string, row: ItemRow)
  {
    env.connected &&
    env.hostQuery(hostname).HostFound? && env.hostQuery(hostname).status != 1 &&
    env.itemQuery(hostname, metricName) == ItemFound(row) &&
    0 <= row.valueType <= 4 && row.status == 0
  }

  /** A reversed window is answered before any collaborator is consulted. */
  lemma ReversedWindowNeedsNoLookup(env1: Env, env2: Env, hostname: string, metricName: string,
                                    timeFrom: int, timeTo: int, stat1: Option<string>, stat2: Option<string>)
    requires timeFrom > timeTo
    ensures GetMetricData(env1, hostname, metricName, timeFrom, timeTo, stat1) == PlainText(InvalidTimeRange)
    ensures GetMetricData(env1, hostname, metricName, timeFrom, timeTo, stat1) ==
            GetMetricData(env2, hostname, metricName, timeFrom, timeTo, stat2)
  {
  }

  /**
   * The checks run in a fixed order: a missing host row raises first, then a
   * missing item is reported whatever the host status, then a disabled host
   * (status 1 only) whatever the item status, then a disabled item.
   */
  lemma ChecksRunInOrder(env: Env, hostname: string, metricName: string, timeFrom: int, timeTo: int,
                         stat: Option<string>)
    requires timeFrom <= timeTo && env.connected
    ensures var r := GetMetricData(env, hostname, metricName, timeFrom, timeTo, stat);
            var host := env.hostQuery(hostname);
            var item := env.itemQuery(hostname, metricName);
            (host == NoHost ==> r == Raised(TypeError)) &&
            (host.HostFound? && item == NoItem ==> r == PlainText(ItemNotFound(metricName, hostname))) &&
            (host.HostFound? && host.status == 1 && item.ItemFound? && 0 <= item.row.valueType <= 4 ==>
               r == ErrorDict(HostDisabled(hostname), hostname, metricName, "unknown", None)) &&
            (host.HostFound? && host.status != 1 && item.ItemFound? && 0 <= item.row.valueType <= 4 &&
             item.row.status != 0 ==>
               r == ErrorDict(ItemDisabled(metricName), hostname, metricName, item.row.units, None))
  {
  }

  /** A failed host query does not stop the request: the host counts as enabled. */
  lemma FailedHostQueryCountsAsEnabled(env: Env, hostname: string, metricName: string, timeFrom: int,
                                       timeTo: int, stat: Option<string>, detail: string, hostid: int)
    requires env.hostQuery(hostname) == HostQueryError(detail)
    ensures var enabled := env.(hostQuery := (h: string) => HostFound(hostid, h, 0));
            GetMetricData(env, hostname, metricName, timeFrom, timeTo, stat) ==
            GetMetricData(enabled, hostname, metricName, timeFrom, timeTo, stat)
  {
    var enabled := env.(hostQuery := (h: string) => HostFound(hostid, h, 0));
    if timeFrom <= timeTo && env.connected {
      assert GetMonitoringStatus(env.connected, env.hostQuery(hostname)) == ReturnedError("Query failed: " + detail);
      assert GetMonitoringStatus(enabled.connected, enabled.hostQuery(hostname)) == StatusCode(0);
    }
  }

  /** Once every check has passed, the request is served by routing and dispatch. */
  lemma ServingReachesDispatch(env: Env, hostname: string, metricName: string, row: ItemRow,
                               timeFrom: int, timeTo: int, stat: Option<string>)
    requires Serving(env, hostname, metricName, row) && timeFrom <= timeTo
    ensures GetMetricData(env, hostname, metricName, timeFrom, timeTo, stat) ==
            Serve(env, hostname, metricName, DetailOf(row), timeFrom, timeTo, stat)
  {
    assert GetItemDetail(env.connected, env.itemQuery(hostname, metricName), metricName) == Detail(DetailOf(row));
  }

  /** The "no valid history table" answer is never given: every known value_type has a history table. */
  lemma NoHistoryTableNeverReported(env: Env, hostname: string, metricName: string, timeFrom: int, timeTo: int,
                                    stat: Option<string>)
    ensures var r := GetMetricData(env, hostname, metricName, timeFrom, timeTo, stat);
            !(r.PlainText? && r.message.NoHistoryTable?)
  {
    var lookup := GetItemDetail(env.connected, env.itemQuery(hostname, metricName), metricName);
    if lookup.Detail? {
      DetailTablesPassWhitelists(env.connected, env.itemQuery(hostname, metricName), metricName);
    }
  }

  /**
   * String, log and text items are read from history, and any statistic but
   * `last` is dropped silently: never reported invalid, never applied.
   */
  lemma TextItemsDropStatistics(env: Env, hostname: string, metricName: string, row: ItemRow,
                                timeFrom: int, timeTo: int, stat: Option<string>)
    requires Serving(env, hostname, metricName, row) && timeFrom <= timeTo
    requires row.valueType in {1, 2, 4}
    ensures var r := GetMetricData(env, hostname, metricName, timeFrom, timeTo, stat);
            var h := env.run(Query(DetailOf(row).historyTable, "value", row.itemid, timeFrom, timeTo));
            !r.ErrorDict? &&
            (stat != Some("last") && h.ResultSet? ==> r == SuccessDict(hostname, metricName, row.units, SampleRows(h.rows), None)) &&
            (stat == Some("last") && h.ResultSet? && h.rows != [] ==>
               r == SuccessDict(hostname, metricName, row.units, Statistic(Single(h.rows[LastIndex(h.rows)])), stat))
  {
    ServingReachesDispatch(env, hostname, metricName, row, timeFrom, timeTo, stat);
    var item := DetailOf(row);
    assert item.historyTable in TextTables;
    assert RouteOf(env.now, item, timeFrom, timeTo) == History;
  }

  /** A fetch that returns no rows gives [] without applying the statistic. */
  lemma EmptyFetchSkipsStatistic(env: Env, hostname: string, metricName: string, row: ItemRow,
                                 timeFrom: int, timeTo: int, stat: Option<string>)
    requires Serving(env, hostname, metricName, row) && timeFrom <= timeTo
    requires forall q :: env.run(q) == ResultSet([])
    requires RouteOf(env.now, DetailOf(row), timeFrom, timeTo) in {History, Trends, TrendsAndHistory}
    requires !StatGiven(stat) || stat.value in ValidStats
    ensures GetMetricData(env, hostname, metricName, timeFrom, timeTo, stat) ==
            SuccessDict(hostname, metricName, row.units, SampleRows([]), EffectiveStat(DetailOf(row), stat))
  {
    ServingReachesDispatch(env, hostname, metricName, row, timeFrom, timeTo, stat);
    var item := DetailOf(row);
    var route := RouteOf(env.now, item, timeFrom, timeTo);
    var measure := EffectiveStat(item, stat);
    assert !StatGiven(measure) || measure.value in ValidStats;
    assert HistoryFetch(env, item, timeFrom, timeTo) == Fetched([]);
    if route != History {
      NumericItemsHaveTrends(row);
      assert TrendsFetch(env, item, timeFrom, timeTo, measure) == Fetched([]);
      var none: seq<Sample> := [];
      assert none + none == none;
      assert Combine(Fetched(none), Fetched(none)) == Some(Fetched(none));
    }
    assert Dispatch(env, item, timeFrom, timeTo, route, measure) == Produced(SampleRows([]));
  }

  /** A numeric history table implies a whitelisted trends table. */
  lemma NumericItemsHaveTrends(row: ItemRow)
    requires TableMapping(row.valueType).Some?
    ensures DetailOf(row).historyTable !in TextTables ==>
              DetailOf(row).trendsTable.Some? && DetailOf(row).trendsTable.value in TrendTables
  {
  }

  /**
   * A window that straddles the history threshold reads both tables and
   * returns the history rows followed by the trend rows.
   */
  lemma StraddlingWindowConcatenates(env: Env, hostname: string, metricName: string, row: ItemRow,
                                     timeFrom: int, timeTo: int, stat: Option<string>,
                                     historyRows: seq<Sample>, trendRows: seq<Sample>)
    requires Serving(env, hostname, metricName, row) && timeFrom <= timeTo
    requires RouteOf(env.now, DetailOf(row), timeFrom, timeTo) == TrendsAndHistory
    requires !StatGiven(stat) || stat.value in ValidStats
    requires env.run(Query(DetailOf(row).historyTable, "value", row.itemid, timeFrom, timeTo)) == ResultSet(historyRows)
    requires DetailOf(row).trendsTable.Some?
    requires env.run(Query(DetailOf(row).trendsTable.value, TrendColumn(stat), row.itemid, timeFrom, timeTo)) ==
             ResultSet(trendRows)
    ensures var r := GetMetricData(env, hostname, metricName, timeFrom, timeTo, stat);
            (!StatGiven(stat) ==> r == SuccessDict(hostname, metricName, row.units, SampleRows(historyRows + trendRows), stat)) &&
            (StatGiven(stat) && historyRows + trendRows == [] ==>
               r == SuccessDict(hostname, metricName, row.units, SampleRows([]), stat)) &&
            (StatGiven(stat) && historyRows + trendRows != [] ==>
               r == match ComputeStatistic(historyRows + trendRows, stat.value)
                    case Ok(v) => SuccessDict(hostname, metricName, row.units, Statistic(v), stat)
                    case Err(_) => Raised(StatisticsError))
  {
    ServingReachesDispatch(env, hostname, metricName, row, timeFrom, timeTo, stat);
    var item := DetailOf(row);
    assert item.historyTable !in TextTables;
    NumericItemsHaveTrends(row);
    assert EffectiveStat(item, stat) == stat;
    assert HistoryFetch(env, item, timeFrom, timeTo) == Fetched(historyRows);
    assert TrendsFetch(env, item, timeFrom, timeTo, stat) == Fetched(trendRows);
    BothFetchedOutcome(historyRows, trendRows, stat);
  }

  /** How two successful fetches of a straddling window turn into data or an exception. */
  lemma BothFetchedOutcome(historyRows: seq<Sample>, trendRows: seq<Sample>, stat: Option<string>)
    requires !StatGiven(stat) || stat.value in ValidStats
    ensures var h, t := Fetched(historyRows), Fetched(trendRows);
            (!StatGiven(stat) ==> BothRaw(h, t) == Produced(SampleRows(historyRows + trendRows))) &&
            (StatGiven(stat) && historyRows + trendRows == [] ==>
               BothWithStatistic(h, t, stat.value) == Produced(SampleRows([]))) &&
            (StatGiven(stat) && historyRows + trendRows != [] ==>
               BothWithStatistic(h, t, stat.value) ==
               match ComputeStatistic(historyRows + trendRows, stat.value)
               case Ok(v) => Produced(Statistic(v))
               case Err(_) => Threw(StatisticsError))
  {
    var h, t := Fetched(historyRows), Fetched(trendRows);
    var none: seq<Sample> := [];
    if historyRows == [] {
      assert none + trendRows == trendRows;
    }
    if trendRows == [] {
      assert historyRows + none == historyRows;
    }
    assert Combine(h, t) == Some(Fetched(historyRows + trendRows));
    if StatGiven(stat) && historyRows + trendRows != [] {
      ValidStatsAreOperations();
    }
  }

  /** The windows labelled "No data - too old" and "Invalid range" end in an uncaught KeyError. */
  lemma UnroutableWindowsRaiseKeyError(env: Env, hostname: string, metricName: string, row: ItemRow,
                                       timeFrom: int, timeTo: int, stat: Option<string>)
    requires Serving(env, hostname, metricName, row) && timeFrom <= timeTo
    requires RouteOf(env.now, DetailOf(row), timeFrom, timeTo) in {TooOld, InvalidRange}
    requires !StatGiven(stat) || stat.value in ValidStats
    ensures var route := RouteOf(env.now, DetailOf(row), timeFrom, timeTo);
            GetMetricData(env, hostname, metricName, timeFrom, timeTo, stat) == Raised(KeyError(Label(route)))
  {
    ServingReachesDispatch(env, hostname, metricName, row, timeFrom, timeTo, stat);
    var item := DetailOf(row);
    assert item.historyTable !in TextTables;
    assert EffectiveStat(item, stat) == stat;
  }

  /**
   * A numeric item asked for an unknown statistic gets the _error_response
   * dictionary naming it, before any fetch and whatever the route, so even
   * the windows that would raise KeyError answer with the dictionary.
   */
  lemma InvalidStatisticReported(env: Env, hostname: string, metricName: string, row: ItemRow,
                                 timeFrom: int, timeTo: int, s: string)
    requires Serving(env, hostname, metricName, row) && timeFrom <= timeTo
    requires row.valueType == 0 || row.valueType == 3
    requires s != "" && s !in ValidStats
    ensures GetMetricData(env, hostname, metricName, timeFrom, timeTo, Some(s)) ==
            ErrorDict(InvalidStatistic(s), hostname, metricName, row.units, Some(s))
  {
    ServingReachesDispatch(env, hostname, metricName, row, timeFrom, timeTo, Some(s));
  }

  /**
   * A RuntimeError raised by get_item_detail escapes get_metric_data: its
   * call is outside the try block. Without a connection this is always the
   * answer to an ordered window.
   */
  lemma LookupErrorsEscape(env: Env, hostname: string, metricName: string, timeFrom: int, timeTo: int,
                           stat: Option<string>)
    requires timeFrom <= timeTo
    ensures !env.connected ==>
              GetMetricData(env, hostname, metricName, timeFrom, timeTo, stat) == Raised(RuntimeError(NoConnection))
    ensures var lookup := GetItemDetail(env.connected, env.itemQuery(hostname, metricName), metricName);
            env.connected && !env.hostQuery(hostname).NoHost? && lookup.LookupRaised? ==>
              GetMetricData(env, hostname, metricName, timeFrom, timeTo, stat) == Raised(RuntimeError(lookup.error))
  {
  }

  /**
   * A driver error on the one table a window reads is not raised: without a
   * statistic the success dictionary carries the error object as its data,
   * and with one compute_statistic fails on it with a TypeError.
   */
  lemma DriverErrorOnOneTable(env: Env, hostname: string, metricName: string, row: ItemRow,
                              timeFrom: int, timeTo: int, stat: Option<string>, detail: string)
    requires Serving(env, hostname, metricName, row) && timeFrom <= timeTo
    requires var m := EffectiveStat(DetailOf(row), stat); !StatGiven(m) || m.value in ValidStats
    requires var route := RouteOf(env.now, DetailOf(row), timeFrom, timeTo);
             (route == History &&
              env.run(Query(DetailOf(row).historyTable, "value", row.itemid, timeFrom, timeTo)) == DriverError(detail)) ||
             (route == Trends && DetailOf(row).trendsTable.Some? &&
              env.run(Query(DetailOf(row).trendsTable.value, TrendColumn(EffectiveStat(DetailOf(row), stat)),
                            row.itemid, timeFrom, timeTo)) == DriverError(detail))
    ensures var r := GetMetricData(env, hostname, metricName, timeFrom, timeTo, stat);
            var m := EffectiveStat(DetailOf(row), stat);
            (!StatGiven(m) ==> r == SuccessDict(hostname, metricName, row.units, ErrorObject(detail), m)) &&
            (StatGiven(m) ==> r == Raised(TypeError))
  {
    ServingReachesDispatch(env, hostname, metricName, row, timeFrom, timeTo, stat);
    NumericItemsHaveTrends(row);
    var item := DetailOf(row);
    var m := EffectiveStat(item, stat);
    var route := RouteOf(env.now, item, timeFrom, timeTo);
    if route == History {
      assert HistoryFetch(env, item, timeFrom, timeTo) == Failed(detail);
    } else {
      assert TrendsFetch(env, item, timeFrom, timeTo, m) == Failed(detail);
    }
  }

  /** The accepted statistic names are exactly the operations compute_statistic knows. */
  lemma ValidStatsAreOperations()
    ensures ValidStats == Operations
  {
  }

  /**
   * compute_statistic's own ValueErrors (empty data, unknown operation)
   * never escape get_metric_data. The StatisticsError of stdev on a single
   * row, itself a ValueError in Python, does escape (see
   * OneTableWindowAppliesStatistic).
   */
  lemma EmptyOrUnsupportedNeverEscapes(env: Env, hostname: string, metricName: string, timeFrom: int,
                                        timeTo: int, stat: Option<string>)
    ensures var r := GetMetricData(env, hostname, metricName, timeFrom, timeTo, stat);
            !(r.Raised? && r.exception.ValueError?)
  {
    if timeFrom <= timeTo {
      var monitoring := GetMonitoringStatus(env.connected, env.hostQuery(hostname));
      var lookup := GetItemDetail(env.connected, env.itemQuery(hostname, metricName), metricName);
      if monitoring != RaisedTypeError && lookup.Detail? && monitoring != StatusCode(1) &&
         lookup.item.row.status == 0 && lookup.item.historyTable != "" {
        assert GetMetricData(env, hostname, metricName, timeFrom, timeTo, stat) ==
               Serve(env, hostname, metricName, lookup.item, timeFrom, timeTo, stat);
        ServeNeverRaisesEmptyOrUnsupported(env, hostname, metricName, lookup.item, timeFrom, timeTo, stat);
      }
    }
  }

  /** Rows that reach compute_statistic are never empty, and the statistic was validated first. */
  lemma ServeNeverRaisesEmptyOrUnsupported(env: Env, hostname: string, metricName: string, item: ItemDetail,
                                timeFrom: int, timeTo: int, stat: Option<string>)
    ensures var r := Serve(env, hostname, metricName, item, timeFrom, timeTo, stat);
            !(r.Raised? && r.exception.ValueError?)
  {
    var measure := EffectiveStat(item, stat);
    if StatGiven(measure) && measure.value in ValidStats {
      ValidStatsAreOperations();
      var h := HistoryFetch(env, item, timeFrom, timeTo);
      var t := TrendsFetch(env, item, timeFrom, timeTo, measure);
      OneTableNeverRaisesEmptyOrUnsupported(h, measure.value);
      OneTableNeverRaisesEmptyOrUnsupported(t, measure.value);
      BothTablesNeverRaiseEmptyOrUnsupported(h, t, measure.value);
    }
  }

  /**
   * A validated statistic on one table raises only StatisticsError (one-row
   * stdev), or TypeError when the fetch returned a message or an error object.
   */
  lemma OneTableNeverRaisesEmptyOrUnsupported(f: Fetch, op: string)
    requires op in Operations
    ensures var o := WithStatistic(f, op); !(o.Threw? && o.exception.ValueError?)
    ensures var o := WithStatistic(f, op);
            o.Threw? ==> o.exception == StatisticsError || (o.exception == TypeError && !f.Fetched?)
  {
  }

  /**
   * A validated statistic on two tables raises only StatisticsError, or
   * TypeError when either fetch returned a message or an error object.
   */
  lemma BothTablesNeverRaiseEmptyOrUnsupported(h: Fetch, t: Fetch, op: string)
    requires op in Operations
    ensures var o := BothWithStatistic(h, t, op); !(o.Threw? && o.exception.ValueError?)
    ensures var o := BothWithStatistic(h, t, op);
            o.Threw? ==> o.exception == StatisticsError || (o.exception == TypeError && !(h.Fetched? && t.Fetched?))
  {
    if Truthy(h) || Truthy(t) {
      match Combine(h, t)
      case Some(Fetched(rows)) =>
        assert rows != [];
      case _ =>
    }
  }

  /**
   * A window served from one table applies the requested statistic to the
   * rows of that table; trends are read from the column the statistic selects.
   */
  lemma OneTableWindowAppliesStatistic(env: Env, hostname: string, metricName: string, row: ItemRow,
                                       timeFrom: int, timeTo: int, op: string, rows: seq<Sample>)
    requires Serving(env, hostname, metricName, row) && timeFrom <= timeTo
    requires DetailOf(row).historyTable !in TextTables
    requires op in ValidStats && rows != []
    requires var route := RouteOf(env.now, DetailOf(row), timeFrom, timeTo);
             (route == History &&
              env.run(Query(DetailOf(row).historyTable, "value", row.itemid, timeFrom, timeTo)) == ResultSet(rows)) ||
             (route == Trends && DetailOf(row).trendsTable.Some? &&
              env.run(Query(DetailOf(row).trendsTable.value, TrendColumn(Some(op)), row.itemid, timeFrom, timeTo)) ==
              ResultSet(rows))
    ensures var r := GetMetricData(env, hostname, metricName, timeFrom, timeTo, Some(op));
            match ComputeStatistic(rows, op)
            case Ok(v) => r == SuccessDict(hostname, metricName, row.units, Statistic(v), Some(op))
            case Err(e) => e == TooFewForStdev && r == Raised(StatisticsError)
  {
    ServingReachesDispatch(env, hostname, metricName, row, timeFrom, timeTo, Some(op));
    NumericItemsHaveTrends(row);
    ValidStatsAreOperations();
    assert EffectiveStat(DetailOf(row), Some(op)) == Some(op);
  }

  /** Inside get_metric_data no fetch is refused by a whitelist: no success carries a message string. */
  lemma WhitelistsNeverRefuseInPipeline(env: Env, hostname: string, metricName: string, timeFrom: int,
                                        timeTo: int, stat: Option<string>)
    ensures var r := GetMetricData(env, hostname, metricName, timeFrom, timeTo, stat);
            r.SuccessDict? ==> !r.data.Text?
  {
    if timeFrom <= timeTo {
      var monitoring := GetMonitoringStatus(env.connected, env.hostQuery(hostname));
      var lookup := GetItemDetail(env.connected, env.itemQuery(hostname, metricName), metricName);
      if monitoring != RaisedTypeError && lookup.Detail? && monitoring != StatusCode(1) &&
         lookup.item.row.status == 0 && lookup.item.historyTable != "" {
        assert GetMetricData(env, hostname, metricName, timeFrom, timeTo, stat) ==
               Serve(env, hostname, metricName, lookup.item, timeFrom, timeTo, stat);
        var item := lookup.item;
        assert env.connected;
        NumericItemsHaveTrends(item.row);
        assert item == DetailOf(item.row);
        ServeNeverRefused(env, hostname, metricName, item, timeFrom, timeTo, stat);
      }
    }
  }

  /** With a connection and whitelisted tables, no fetch of serve is refused. */
  lemma ServeNeverRefused(env: Env, hostname: string, metricName: string, item: ItemDetail,
                          timeFrom: int, timeTo: int, stat: Option<string>)
    requires env.connected && item.historyTable in HistoryTables
    requires item.historyTable !in TextTables ==> item.trendsTable.Some? && item.trendsTable.value in TrendTables
    ensures var r := Serve(env, hostname, metricName, item, timeFrom, timeTo, stat);
            r.SuccessDict? ==> !r.data.Text?
  {
    var measure := EffectiveStat(item, stat);
    var h := HistoryFetch(env, item, timeFrom, timeTo);
    var t := TrendsFetch(env, item, timeFrom, timeTo, measure);
    assert !h.Refused?;
    if item.historyTable !in TextTables {
      assert !t.Refused?;
      NoTextWithoutRefusal(h, t);
    }
  }

  /** Data that is a message string can only come from a refused fetch. */
  lemma NoTextWithoutRefusal(h: Fetch, t: Fetch)
    requires !h.Refused? && !t.Refused?
    ensures !RawData(h).Text? && !RawData(t).Text?
    ensures var o := BothRaw(h, t); !(o.Produced? && o.data.Text?)
  {
  }
}
