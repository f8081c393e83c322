# ZabbixDB metric core in Dafny

A model of the decision logic in `ZabbixDB` (zabbix_db.py), the class that reads Zabbix host,
item, history and trends data for a monitoring assistant. The model covers these parts:

- **Sample statistics** (module `Stats`). `compute_statistic` reduces `{clock, value}` rows by
  operation name. `min` and `max` keep every tied row. `last` takes the latest clock.
  `mean`/`avg`, `median`, `stdev`, `sum`, `count`, `range` and `mad` are reductions. Empty data
  and unknown names raise.
- **Retention strings** (module `Durations`). `convert_day` scans a lower-cased retention string
  such as `"90d"` or `"1d2h30m"` for `<digits><d|h|m>` matches and sums them in days. It then
  rounds to two decimals, half to even. `time_difference` is floor division by 86400.
- **Retention routing** (module `Routing`). `get_function_name` turns "now" and the history and
  trends retention into two integer thresholds. It then labels a window with one of five labels,
  testing them in a fixed order.
- **Tables** (module `Tables`):
  - the value_type → (history table, trends table) mapping of `get_item_detail`;
  - the table-name whitelists of `get_history_data` and `get_trend_data`;
  - the trends column chosen per statistic;
  - the fetch methods' results: rows, a returned message string, or a returned RuntimeError
    object.
- **The metric request** (module `MetricData`). `get_monitoring_Status` and `get_metric_data` run
  their checks in this order:
  1. the time-range check;
  2. the host status lookup;
  3. the item lookup;
  4. item found;
  5. host disabled;
  6. item disabled;
  7. history table present;
  8. routing (non-numeric items are forced to history and lose every statistic but `last`);
  9. statistic validation;
  10. dispatch through the table of fetch closures.

  Every result shape is a variant of `MetricResponse`: the bare strings, the `_error_response`
  dictionary, the success dictionary, and the exceptions that escape the method.

The database is abstracted away. The connection state, the current time and the answers to the
host query, the item query and each history/trends query come from an `Env` value. The method
`Durations.ConvertDay` keeps the source's accumulating loop and is proved against the
specification function `DayCount`. The rest of the core is expressions and branching, so it is
modelled as functions.

Behaviours kept exactly as the code has them:

- `compute_statistic` on empty data raises "Data list is empty." (callers only skip the call for
  an empty fetch).
- A window that straddles the history threshold reads both tables and concatenates history rows,
  then trend rows.
- The labels "No data - too old" and "Invalid range" have no entry in the dispatch table, so those
  windows end in an uncaught `KeyError`.
- `get_item_detail` is called outside the `try` of `get_metric_data`, so its RuntimeErrors (no
  connection, a failed item query, an unknown value_type) leave the method.
- The fetch methods return a driver error as an object instead of raising it. Without a statistic
  that object becomes the `data` of a success dictionary. With one, `compute_statistic` iterates it
  and raises a TypeError.
- Values are not rounded before a statistic is computed.

## Model

| member | source | states |
|---|---|---|
| Stats.ComputeStatistic | zabbix_db.py:79-135 | Empty data fails with "Data list is empty." whatever the operation. Non-empty data with a name outside the eleven operations fails as unsupported. The statistics error comes exactly from `stdev` on one row. No other failure exists. |
| Stats.KeepValue | zabbix_db.py:103 | The comprehension keeps every row whose value equals the target, as often as it occurs, and no other row. |
| Stats.KeepValueAppend | zabbix_db.py:103 | The filter distributes over concatenation, so tied rows keep their input order. |
| Stats.MinKeepsEveryTie | zabbix_db.py:101-103 | `min` returns a non-empty list: exactly the rows whose value is the least value, every tie and nothing else. |
| Stats.MaxKeepsEveryTie | zabbix_db.py:105-107 | `max` returns a non-empty list: exactly the rows whose value is the greatest value, every tie and nothing else. |
| Stats.LastIndex | zabbix_db.py:110 | `max(data, key=clock)` picks a row with the greatest clock, and the first one among ties. |
| Stats.LastIsFirstLatest | zabbix_db.py:109-110 | `last` returns the first row, in input order, whose clock is maximal. |
| Stats.MeanBetweenExtremes | zabbix_db.py:112-113 | `mean` and `avg` agree, and the mean lies between the least and the greatest value. |
| Stats.MeanTimesCountIsSum | zabbix_db.py:112-113 | `mean` is `sum` over `count`: the mean times the number of rows equals the `sum` statistic. |
| Stats.SortAscending | zabbix_db.py:115-116 | The sorted values are ascending and a permutation of the values. |
| Stats.MedianSplitsValues | zabbix_db.py:115-116 | `statistics.median` of non-empty values has at least half of them at or below it and at least half at or above it. For an odd count more than half lie on each side, so it is the middle value. For an even count it is the midpoint of the two middle values `a` and `b`: half of the values are at most `a` and one more than half at least `a`, and the other way round for `b`. |
| Stats.MedianSplits | zabbix_db.py:115-116 | The same for the `median` statistic of the rows: half of the values on each side, the middle value for an odd count, the midpoint of the two middle values for an even count. |
| Stats.MedianWithinBounds | zabbix_db.py:115-116 | The median lies within any bounds that hold for every value. |
| Stats.StdevNeedsTwoRows | zabbix_db.py:118-119 | `stdev` fails exactly on a single row. Otherwise it is the square root of a non-negative sample variance. |
| Stats.Variance | zabbix_db.py:118-119 | The sample variance under the root of `stdev` is never negative. |
| Stats.SumSquaresNonNegative | zabbix_db.py:118-119 | The sum of squared deviations from any centre is never negative. |
| Stats.CountAndSumOfConcatenation | zabbix_db.py:121-125 | `count` of a concatenation is the total number of rows, and `sum` is additive over the parts. |
| Stats.CountAndSumOfRows | zabbix_db.py:121-125 | For non-empty data, `count` is the number of rows and `sum` the sum of the row values. |
| Stats.RangeIsSpread | zabbix_db.py:127-128 | `range` is never negative, and it is zero exactly when all values are equal. |
| Stats.RangeIsMaxMinusMin | zabbix_db.py:127-128 | `range` is the value of the rows `max` returns minus the value of the rows `min` returns. |
| Stats.MadNonNegative | zabbix_db.py:130-132 | `mad`, the median of the absolute deviations from the median, is never negative. |
| Stats.Deviations | zabbix_db.py:132 | `[abs(x - med) for x in values]` has one entry per value: its distance from the median, never negative. |
| Durations.LowerChar | zabbix_db.py:152 | Lower-casing one character leaves no upper-case ASCII letter and keeps every other character. A character is a digit after lower-casing exactly when it was one before, and it is a unit letter exactly when it was one of d, h, m, D, H, M. |
| Durations.ConvertDay | zabbix_db.py:146-164 | The accumulating loop returns the two-decimal rounding of the exact day count of the string. |
| Durations.DayCountAppend | zabbix_db.py:152-162 | The day count is additive over two parts of a retention string when the first part does not end in a digit. |
| Durations.DayCountOfOneToken | zabbix_db.py:152-162 | A single `<digits><unit>` token, in either case, counts int(digits) days, hours/24 or minutes/1440. |
| Durations.DayCountWithoutUnits | zabbix_db.py:152-164 | A string with no d, h or m counts zero days, so `s` and `w` tokens are dropped. |
| Durations.FindTokensAppend | zabbix_db.py:152 | The matches of a concatenation are the matches of each part when the first part does not end inside a number. |
| Durations.ScanTokensAppend | zabbix_db.py:152 | The `findall` scan restarts after every non-digit, so its matches over a split after a non-digit are the matches of the two parts. |
| Durations.ScanTokensOfOneToken | zabbix_db.py:152 | A maximal digit run followed by a unit letter is one match carrying the whole run. |
| Durations.ScanTokensWithoutUnits | zabbix_db.py:152 | A string with no unit letter holds no match. |
| Durations.ScanTokensWithoutDigits | zabbix_db.py:152 | A string with no digit holds no match, so a unit letter alone is skipped. |
| Durations.DigitsValueLeadingZero | zabbix_db.py:156 | `int()` of a digit group ignores leading zeros. |
| Durations.DayCountWithoutDigits | zabbix_db.py:152-162 | A string with no digit counts zero days, whatever letters it holds. |
| Durations.DayCountOfRepeatedUnit | zabbix_db.py:152-162 | A unit letter with no digits before it adds nothing: "3dd" counts 3 days. |
| Durations.ConvertDayExample | zabbix_db.py:146-164 | The documented example "1d2h30m" counts 1 + 2/24 + 30/1440 days and rounds to 1.1. |
| Durations.RoundHalfEven | zabbix_db.py:164 | `round` gives the nearest integer, and an exact tie goes to the even neighbour. |
| Durations.RoundHundredths | zabbix_db.py:164 | `round(x, 2)` is a whole number of hundredths within half a hundredth of x. |
| Durations.TimeDifference | zabbix_db.py:137-144 | The day difference is the floor of the seconds gap over 86400. It is 0 for a gap under one day and negative when the window is reversed. |
| Routing.Trunc | zabbix_db.py:355-356 | `int()` on a float truncates toward zero. |
| Routing.Threshold | zabbix_db.py:355-356 | The threshold is within one second of `now - days * 86400`, and at most that value when it is not negative. |
| Routing.ThresholdAntitone | zabbix_db.py:352-356 | A longer retention never gives a later threshold. |
| Routing.GetFunctionName | zabbix_db.py:352-367 | Each label holds exactly under its closed-form condition. "No data - too old" iff time_to < trends threshold. "get_history" iff not too old and time_from ≥ history threshold. "Invalid range" iff time_from < trends threshold ≤ time_to < history threshold. |
| Routing.RetainedWindowsAreServed | zabbix_db.py:358-367 | When trends are kept at least as long as history, an ordered window starting inside trends retention always gets a fetch label. |
| Tables.TableMapping | zabbix_db.py:248-254 | Only value_types 0–4 are mapped. Each history table is whitelisted. Trends tables exist exactly for types 0 and 3, and they are whitelisted. |
| Tables.MappingIsInjective | zabbix_db.py:248-254 | Distinct value_types read distinct history tables. |
| Tables.TrendColumn | zabbix_db.py:294-298 | The column is `value_max` exactly for `max`, `value_min` exactly for `min`, and `value_avg` otherwise. |
| Tables.GetHistoryData | zabbix_db.py:321-350 | Without a connection, or for a table off the whitelist, it returns a message. Otherwise it returns the rows of the `value` query, or the driver error as an object. |
| Tables.GetTrendData | zabbix_db.py:284-319 | Same as history with the trends whitelist, including `None`. The query reads the column chosen by the statistic. |
| Tables.GetItemDetail | zabbix_db.py:221-282 | Without a connection it raises. A failed item query raises with the driver detail, and with a connection and no row it returns None. A value_type outside the mapping raises. A found row with a mapped value_type gives a detail with that row and its mapped table names. |
| Tables.DetailTablesPassWhitelists | zabbix_db.py:248-254 | Every item detail names a non-empty whitelisted history table. When it has a trends table, that table is whitelisted, and it has one exactly for types 0 and 3. |
| MetricData.GetMonitoringStatus | zabbix_db.py:166-190 | 1 exactly for a found host with status 1, and 0 for any other found host. A missing host row raises TypeError. A missing connection returns the "Database connection not established" error object, and a driver error returns "Query failed: " with its detail. |
| MetricData.GetMetricData | zabbix_db.py:369-374 | The reversed-window message is given exactly when time_from > time_to. |
| MetricData.ReversedWindowNeedsNoLookup | zabbix_db.py:373-374 | A reversed window is answered the same way whatever the database holds and whatever statistic is asked. |
| MetricData.ChecksRunInOrder | zabbix_db.py:376-389 | A missing host row raises first. Then a missing item is reported whatever the host status. Then a disabled host (status 1 only) with unit "unknown". Then a disabled item with its unit. |
| MetricData.FailedHostQueryCountsAsEnabled | zabbix_db.py:376-383 | A host query that fails yields an error object, not 1, so the request goes on as for an enabled host. |
| MetricData.ServingReachesDispatch | zabbix_db.py:376-402 | Once every check passes, the answer is decided by routing, statistic validation and dispatch alone. |
| MetricData.NoHistoryTableNeverReported | zabbix_db.py:391-392 | The "No valid history table" message is never produced, because every accepted value_type has a history table. |
| MetricData.TextItemsDropStatistics | zabbix_db.py:394-402 | String, log and text items are read from history. Any statistic but `last` is dropped, never reported invalid and never applied. `last` gives the latest row. |
| MetricData.RouteOf | zabbix_db.py:394-401 | Text tables are always routed to history. For numeric items the route is `get_function_name` of the window and the two thresholds computed from the rounded history and trends retention, so the window is "too old" exactly when it ends before the trends threshold. |
| MetricData.EffectiveStat | zabbix_db.py:400-402 | Numeric items keep the requested statistic. Text items keep it only when it is `last` and otherwise have none. |
| MetricData.InvalidStatisticReported | zabbix_db.py:404-411 | A numeric item asked for a non-empty unknown statistic gets the `_error_response` dictionary naming it, with the item unit. This comes before any fetch and whatever the route. |
| MetricData.EmptyFetchSkipsStatistic | zabbix_db.py:422-441 | When every query returns no rows, each served route answers success with `[]` and never calls the statistic. |
| MetricData.NumericItemsHaveTrends | zabbix_db.py:248-254 | A numeric history table comes with a whitelisted trends table. |
| MetricData.StraddlingWindowConcatenates | zabbix_db.py:430-441 | A straddling window returns the history rows followed by the trend rows. With a statistic, that applies to the concatenation. |
| MetricData.BothFetchedOutcome | zabbix_db.py:430-441 | The result of `fetch_both_with_stats` and `fetch_both_raw` when both fetches return rows. |
| MetricData.Combine | zabbix_db.py:430-441 | `(history or []) + (trends or [])` concatenates two row lists in order and fails on a returned error object. A list combined from a non-empty side is non-empty. |
| MetricData.UnroutableWindowsRaiseKeyError | zabbix_db.py:443-449 | "No data - too old" and "Invalid range" end in a KeyError carrying the label. |
| MetricData.ValidStatsAreOperations | zabbix_db.py:405-406 | The accepted statistic names are exactly the operations `compute_statistic` knows. |
| MetricData.EmptyOrUnsupportedNeverEscapes | zabbix_db.py:405-449 | The two ValueErrors `compute_statistic` raises itself, "Data list is empty." and "Unsupported operation", never leave `get_metric_data`: validation rejects unknown names and empty fetches skip the call. The StatisticsError of one-row `stdev`, a ValueError subclass in Python, does escape (MetricData.OneTableWindowAppliesStatistic). |
| MetricData.ServeNeverRaisesEmptyOrUnsupported | zabbix_db.py:405-449 | Past the enabled checks, neither "Data list is empty." nor "Unsupported operation" is raised. |
| MetricData.OneTableNeverRaisesEmptyOrUnsupported | zabbix_db.py:422-428 | A one-table fetch with a known statistic never raises "Data list is empty." or "Unsupported operation". It raises only the StatisticsError of one-row `stdev`, or a TypeError when the fetch returned a message string or an error object instead of rows. |
| MetricData.BothTablesNeverRaiseEmptyOrUnsupported | zabbix_db.py:430-436 | A two-table fetch with a known statistic never raises those two ValueErrors either. It raises only StatisticsError, or a TypeError when either fetch returned a message string or an error object. |
| MetricData.LookupErrorsEscape | zabbix_db.py:376-377 | A RuntimeError raised by `get_item_detail` leaves `get_metric_data`, because the call sits before the `try`. Without a connection an ordered window always ends in the "No active database connection" RuntimeError. |
| MetricData.DriverErrorOnOneTable | zabbix_db.py:422-458 | A driver error on the one table a window reads is not raised. Without a statistic the success dictionary carries the returned error object as its data. With a statistic `compute_statistic` fails on it with a TypeError. |
| MetricData.OneTableWindowAppliesStatistic | zabbix_db.py:422-428 | A window served from one table answers the statistic of that table's rows. Trends rows come from the column the statistic selects. `stdev` of one row raises a statistics error. |
| MetricData.WhitelistsNeverRefuseInPipeline | zabbix_db.py:415-449 | No success answer carries a whitelist or connection message, because the tables and connection that reach dispatch always pass. |
| MetricData.ServeNeverRefused | zabbix_db.py:415-449 | With a connection and whitelisted tables, no fetch used by dispatch returns a message string. |
| MetricData.NoTextWithoutRefusal | zabbix_db.py:415-441 | Message-string data only arises from a fetch that returned a message. |

## Left out

- Connection lifecycle and driver choice (`__init__`, `connect`, `close`, `__enter__`, `__exit__`) are not modelled. They are I/O against the database drivers, and the connection appears only as the boolean `Env.connected`.
- The SQL itself is not modelled. Each query is an abstract answer: a host row or none, an item row or none, a result set, or a driver error.
- The `except (MySQLError, PostgresError)` handler of `get_metric_data` is not modelled. The fetch methods already catch driver errors and return them as objects, so the handler never fires.
- `get_host_by_group`, `get_all_alerts`, `get_alerts` and `get_common_issues` are not modelled. They are SQL and dataframe filtering with no logic shared with the metric path.
- `get_host_status` is not modelled. It repeats the host query of `get_monitoring_Status` and only reshapes the row.
- The `__main__` block is not modelled; it is configuration and printing.
- Stats.StdevNeedsTwoRows: `stdev` is returned as the sample variance it is the square root of, because there is no exact square root over reals.
- Floating point is not modelled. Values, means and day counts are exact reals.
  - Durations.ConvertDay: sums exact minutes rather than adding value/24 and value/1440 as floats, so binary rounding of the partial sums and of `round(x, 2)` is not captured.
  - Routing.Threshold and MetricData.RouteOf take `now` as an exact real in place of `datetime.now().timestamp()`, and the products with 86400.0 are exact. Routing.GetFunctionName takes the two integer thresholds.
- Durations.LowerChar: only ASCII letters are lower-cased, and `\d` is taken as ASCII digits. Unicode case mapping and Unicode digits are not modelled.
- Durations.TimeDifference: the range limits of `datetime.fromtimestamp` (OverflowError, OSError) are not modelled.
- Stats.ComputeStatistic: sample values are reals. Rows of string, log and text items carry no string payload; only `last` and raw returns reach them, and neither inspects the value.
