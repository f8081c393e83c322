/**
 * Table selection and the guarded fetches: the value_type mapping of
 * ZabbixDB.get_item_detail, the table-name whitelists and the trend column
 * choice of get_history_data and get_trend_data. The SQL they run is a
 * parameter: `run` answers a query with a result set or a driver error.
 */
module Tables {
  import opened Wrappers
  import opened Stats

  /** The history table and, for numeric items only, the trends table of a value_type. */
  datatype TableNames = TableNames(history: string, trends: Option<string>)

  /** `table_mapping[value_type]`; None for a value_type outside the mapping. */
  function TableMapping(valueType: int): (r: Option<TableNames>)
    ensures r.Some? <==> 0 <= valueType <= 4
    ensures r.Some? ==> r.value.history in HistoryTables
    ensures r.Some? ==> (r.value.trends.Some? <==> valueType == 0 || valueType == 3)
    ensures r.Some? && r.value.trends.Some? ==> r.value.trends.value in TrendTables
  {
    if valueType == 0 then Some(TableNames("history", Some("trends")))
    else if valueType == 1 then Some(TableNames("history_str", None))
    else if valueType == 2 then Some(TableNames("history_log", None))
    else if valueType == 3 then Some(TableNames("history_uint", Some("trends_uint")))
    else if valueType == 4 then Some(TableNames("history_text", None))
    else None
  }

  /** Distinct value types read distinct history tables. */
  lemma MappingIsInjective(t1: int, t2: int)
    requires TableMapping(t1).Some? && TableMapping(t2).Some? && t1 != t2
    ensures TableMapping(t1).value.history != TableMapping(t2).value.history
  {
  }

  /** The whitelist get_history_data checks before building its query. */
  const HistoryTables: set<string> := {"history", "history_str", "history_log", "history_uint", "history_text"}

  /** The whitelist get_trend_data checks before building its query. */
  const TrendTables: set<string> := {"trends", "trends_uint"}

  /** The trends column read for a statistic: the stored maximum, minimum or average. */
  function TrendColumn(stat: Option<string>): (column: string)
    ensures column == "value_max" <==> stat == Some("max")
    ensures column == "value_min" <==> stat == Some("min")
    ensures column == "value_avg" <==> stat != Some("max") && stat != Some("min")
  {
    if stat != Some("min") && stat != Some("max") then "value_avg"
    else if stat == Some("max") then "value_max"
    else "value_min"
  }

  /** One parameterised SELECT: table, value column, itemid and the clock range. */
  datatype Query = Query(table: string, column: string, itemid: int, timeFrom: int, timeTo: int)

  /** What the driver gives back for a query. */
  datatype DbReply = ResultSet(rows: seq<Sample>) | DriverError(detail: string)

  /**
   * What a fetch method returns: the rows, a plain message string, or a
   * RuntimeError object (returned, not raised) for a driver error.
   */
  datatype Fetch = Fetched(rows: seq<Sample>) | Refused(message: string) | Failed(detail: string)

  /** get_history_data: connection check, whitelist, then the query. */
  function GetHistoryData(connected: bool, run: Query -> DbReply, itemid: int, timeFrom: int, timeTo: int, table: string): (f: Fetch)
    ensures !connected ==> f == Refused("No active database connection")
    ensures connected && table !in HistoryTables ==> f == Refused("Invalid history table name: " + table)
    ensures !f.Refused? ==> connected && table in HistoryTables
    ensures connected && table in HistoryTables ==>
              match run(Query(table, "value", itemid, timeFrom, timeTo))
              case ResultSet(rows) => f == Fetched(rows)
              case DriverError(e) => f == Failed(e)
  {
    if !connected then Refused("No active database connection")
    else if table !in HistoryTables then Refused("Invalid history table name: " + table)
    else
      match run(Query(table, "value", itemid, timeFrom, timeTo))
      case ResultSet(rows) => Fetched(rows)
      case DriverError(e) => Failed(e)
  }

  /** How Python formats an optional table name in a message. */
  function ShowTable(table: Option<string>): string
  {
    if table.Some? then table.value else "None"
  }

  /**
   * get_trend_data: connection check, whitelist (its message says "history"
   * too), then the query on the column the statistic selects.
   */
  function GetTrendData(connected: bool, run: Query -> DbReply, itemid: int, timeFrom: int, timeTo: int,
                        table: Option<string>, stat: Option<string>): (f: Fetch)
    ensures !connected ==> f == Refused("No active database connection")
    ensures connected && (table.None? || table.value !in TrendTables) ==>
              f == Refused("Invalid history table name: " + ShowTable(table))
    ensures !f.Refused? ==> connected && table.Some? && table.value in TrendTables
    ensures connected && table.Some? && table.value in TrendTables ==>
              match run(Query(table.value, TrendColumn(stat), itemid, timeFrom, timeTo))
              case ResultSet(rows) => f == Fetched(rows)
              case DriverError(e) => f == Failed(e)
  {
    if !connected then Refused("No active database connection")
    else if table.None? || table.value !in TrendTables then Refused("Invalid history table name: " + ShowTable(table))
    else
      match run(Query(table.value, TrendColumn(stat), itemid, timeFrom, timeTo))
      case ResultSet(rows) => Fetched(rows)
      case DriverError(e) => Failed(e)
  }

  /** The item columns get_item_detail selects. */
  datatype ItemRow = ItemRow(itemid: int, hostid: int, name: string, history: string, trends: string,
                             valueType: int, status: int, units: string)

  /** What the item query returns: a row, no row, or a driver error. */
  datatype ItemQuery = ItemFound(row: ItemRow) | NoItem | ItemQueryError(detail: string)

  /** The dictionary get_item_detail builds: the row and its table names. */
  datatype ItemDetail = ItemDetail(row: ItemRow, historyTable: string, trendsTable: Option<string>)

  /** Why get_item_detail raises a RuntimeError. */
  datatype LookupError = NoConnection | InvalidValueType(valueType: int, itemName: string) | FetchFailed(detail: string)

  datatype ItemLookup = Detail(item: ItemDetail) | NoDetail | LookupRaised(error: LookupError)

  /**
   * get_item_detail: raises without a connection, returns None without a
   * row, raises on a value_type outside the mapping and on a driver error.
   */
  function GetItemDetail(connected: bool, q: ItemQuery, itemName: string): (r: ItemLookup)
    ensures r.Detail? ==> connected && q == ItemFound(r.item.row)
    ensures r.Detail? ==>
              TableMapping(r.item.row.valueType) == Some(TableNames(r.item.historyTable, r.item.trendsTable))
    ensures connected && q.ItemFound? && TableMapping(q.row.valueType).None? ==>
              r == LookupRaised(InvalidValueType(q.row.valueType, itemName))
    ensures r == NoDetail <==> connected && q == NoItem
    ensures !connected ==> r == LookupRaised(NoConnection)
    ensures connected && q.ItemQueryError? ==> r == LookupRaised(FetchFailed(q.detail))
    ensures connected && q.ItemFound? && TableMapping(q.row.valueType).Some? ==>
              var names := TableMapping(q.row.valueType).value;
              r == Detail(ItemDetail(q.row, names.history, names.trends))
  {
    if !connected then LookupRaised(NoConnection)
    else
      match q
      case NoItem => NoDetail
      case ItemQueryError(e) => LookupRaised(FetchFailed(e))
      case ItemFound(row) =>
        match TableMapping(row.valueType)
        case None => LookupRaised(InvalidValueType(row.valueType, itemName))
        case Some(names) => Detail(ItemDetail(row, names.history, names.trends))
  }

  /** Every item detail names a whitelisted history table, and a whitelisted trends table when it has one. */
  lemma DetailTablesPassWhitelists(connected: bool, q: ItemQuery, itemName: string)
    requires GetItemDetail(connected, q, itemName).Detail?
    ensures var item := GetItemDetail(connected, q, itemName).item;
            item.historyTable in HistoryTables && item.historyTable != "" &&
            (item.trendsTable.Some? ==> item.trendsTable.value in TrendTables) &&
            (item.trendsTable.Some? <==> item.row.valueType == 0 || item.row.valueType == 3)
  {
  }
}
