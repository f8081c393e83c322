/**
 * Retention routing: ZabbixDB.get_function_name, which decides from the
 * history and trends retention whether a window is served from history,
 * trends, both, or not at all.
 */
module Routing {

  /** The labels get_function_name returns. */
  datatype Route = TooOld | History | Trends | TrendsAndHistory | InvalidRange

  function Label(r: Route): string
  {
    match r
    case TooOld => "No data - too old"
    case History => "get_history"
    case Trends => "get_trends"
    case TrendsAndHistory => "get_trends_and_history"
    case InvalidRange => "Invalid range"
  }

  /** Python's int() on a float: truncation toward zero. */
  function Trunc(x: real): (t: int)
    ensures 0.0 <= x ==> t as real <= x < t as real + 1.0
    ensures x < 0.0 ==> t as real - 1.0 < x <= t as real
  {
    if x >= 0.0 then x.Floor else -((-x).Floor)
  }

  /**
   * int(now - days * 86400): the oldest clock a retention of `days` still
   * covers, where `now` is the current time in (fractional) Unix seconds.
   */
  function Threshold(now: real, days: real): (t: int)
    ensures t as real - 1.0 < now - days * 86400.0 < t as real + 1.0
    ensures now >= days * 86400.0 ==> t as real <= now - days * 86400.0
  {
    Trunc(now - days * 86400.0)
  }

  /** A longer retention never gives a later threshold. */
  lemma ThresholdAntitone(now: real, shorter: real, longer: real)
    requires shorter <= longer
    ensures Threshold(now, longer) <= Threshold(now, shorter)
  {
  }

  /**
   * get_function_name with the two thresholds passed in. The branches are
   * tested in order; each ensures gives the closed form of one label.
   */
  function GetFunctionName(timeFrom: int, timeTo: int, historyThreshold: int, trendsThreshold: int): (r: Route)
    ensures r == TooOld <==> timeTo < trendsThreshold
    ensures r == History <==> trendsThreshold <= timeTo && historyThreshold <= timeFrom
    ensures r == Trends <==>
              trendsThreshold <= timeFrom && timeFrom < historyThreshold &&
              trendsThreshold <= timeTo <= historyThreshold
    ensures r == TrendsAndHistory <==>
              trendsThreshold <= timeTo && timeFrom < historyThreshold &&
              (historyThreshold < timeTo || (historyThreshold == timeTo && timeFrom < trendsThreshold))
    ensures r == InvalidRange <==> timeFrom < trendsThreshold <= timeTo < historyThreshold
  {
    if timeTo < trendsThreshold then TooOld
    else if timeFrom >= historyThreshold then History
    else if timeTo <= historyThreshold && timeFrom >= trendsThreshold then Trends
    else if timeFrom < historyThreshold && timeTo >= historyThreshold then TrendsAndHistory
    else InvalidRange
  }

  /**
   * With trends kept at least as long as history and an ordered window, a
   * window that starts inside the trends retention is always served.
   */
  lemma RetainedWindowsAreServed(timeFrom: int, timeTo: int, historyThreshold: int, trendsThreshold: int)
    requires trendsThreshold <= historyThreshold && timeFrom <= timeTo
    requires trendsThreshold <= timeFrom
    ensures GetFunctionName(timeFrom, timeTo, historyThreshold, trendsThreshold) in {History, Trends, TrendsAndHistory}
  {
  }
}
