/**
 * Retention strings and day arithmetic: ZabbixDB.convert_day, its rounding
 * to two decimals, and ZabbixDB.time_difference.
 */
module Durations {

  /**
   * str.lower() on one character, for ASCII letters: the result is no
   * upper-case letter, every other character is kept, and digits and the
   * unit letters are recognised in either case.
   */
  function LowerChar(c: char): (d: char)
    ensures !('A' <= d <= 'Z')
    ensures !('A' <= c <= 'Z') ==> d == c
    ensures IsDigit(d) <==> IsDigit(c)
    ensures IsUnit(d) <==> c in "dhmDHM"
  {
    if 'A' <= c <= 'Z' then (c as int + 32) as char else c
  }

  /** str.lower(), character by character. */
  function Lower(s: string): (r: string)
    ensures |r| == |s|
    ensures forall i :: 0 <= i < |s| ==> r[i] == LowerChar(s[i])
  {
    seq(|s|, i requires 0 <= i < |s| => LowerChar(s[i]))
  }

  /** The characters `\d` matches here. */
  predicate IsDigit(c: char)
  {
    '0' <= c <= '9'
  }

  /** One match of `(\d+)([dhm])`: the digit group and the unit letter. */
  datatype Token = Token(digits: string, unit: char)

  /** The letters `[dhm]` matches. */
  predicate IsUnit(c: char)
  {
    c == 'd' || c == 'h' || c == 'm'
  }

  /**
   * re.findall(r'(\d+)([dhm])', s), scanning left to right while `run`
   * holds the digits read since the last non-digit. A match is a maximal
   * digit run directly followed by a unit letter: when the letter after a
   * run is no unit, no shorter tail of that run matches either.
   */
  function ScanTokens(run: string, s: string): seq<Token>
    decreases |s|
  {
    if s == [] then []
    else if IsDigit(s[0]) then ScanTokens(run + [s[0]], s[1..])
    else if run != [] && IsUnit(s[0]) then [Token(run, s[0])] + ScanTokens([], s[1..])
    else ScanTokens([], s[1..])
  }

  function FindTokens(s: string): seq<Token>
  {
    ScanTokens([], s)
  }

  function DigitValue(c: char): nat
  {
    if IsDigit(c) then c as int - '0' as int else 0
  }

  /** int() of a digit string. */
  function DigitsValue(ds: string): nat
  {
    if ds == [] then 0 else 10 * DigitsValue(ds[..|ds| - 1]) + DigitValue(ds[|ds| - 1])
  }

  /** Minutes in one unit; a letter that is no unit contributes nothing. */
  function UnitMinutes(unit: char): nat
  {
    if unit == 'd' then 1440 else if unit == 'h' then 60 else if unit == 'm' then 1 else 0
  }

  function TokenMinutes(t: Token): nat
  {
    DigitsValue(t.digits) * UnitMinutes(t.unit)
  }

  function TotalMinutes(ts: seq<Token>): nat
  {
    if ts == [] then 0 else TokenMinutes(ts[0]) + TotalMinutes(ts[1..])
  }

  /** The exact (unrounded) day count of a retention string. */
  function DayCount(duration: string): real
  {
    TotalMinutes(FindTokens(Lower(duration))) as real / 1440.0
  }

  /** The nearest integer to y, ties to the even one, as Python's round does. */
  function RoundHalfEven(y: real): (k: int)
    ensures k as real - 0.5 <= y <= k as real + 0.5
    ensures y == k as real - 0.5 || y == k as real + 0.5 ==> k % 2 == 0
  {
    var f := y.Floor;
    var frac := y - f as real;
    if frac < 0.5 then f
    else if frac > 0.5 then f + 1
    else if f % 2 == 0 then f
    else f + 1
  }

  /** round(x, 2) on exact values: a whole number of hundredths within half a hundredth of x. */
  function RoundHundredths(x: real): (r: real)
    ensures r - 0.005 <= x <= r + 0.005
    ensures (r * 100.0).Floor as real == r * 100.0
  {
    var k := RoundHalfEven(x * 100.0);
    assert k as real / 100.0 * 100.0 == k as real;
    k as real / 100.0
  }

  lemma {:induction false} TotalMinutesAppend(a: seq<Token>, b: seq<Token>)
    ensures TotalMinutes(a + b) == TotalMinutes(a) + TotalMinutes(b)
  {
    if a == [] {
      assert a + b == b;
    } else {
      assert (a + b)[1..] == a[1..] + b;
      TotalMinutesAppend(a[1..], b);
    }
  }

  /**
   * convert_day(duration): sums the matched tokens in days, a day as 1, an
   * hour as 1/24 and a minute as 1/1440, then rounds to two decimals.
   */
  method ConvertDay(duration: string) returns (days: real)
    ensures days == RoundHundredths(DayCount(duration))
  {
    var matches := FindTokens(Lower(duration));
    var totalDays := 0.0;
    for i := 0 to |matches|
      invariant totalDays == TotalMinutes(matches[..i]) as real / 1440.0
    {
      var value := DigitsValue(matches[i].digits);
      var unit := matches[i].unit;
      if unit == 'd' {
        totalDays := totalDays + value as real;
      } else if unit == 'h' {
        totalDays := totalDays + value as real / 24.0;
      } else if unit == 'm' {
        totalDays := totalDays + value as real / 1440.0;
      }
      assert matches[..i + 1] == matches[..i] + [matches[i]];
      TotalMinutesAppend(matches[..i], [matches[i]]);
    }
    assert matches[..|matches|] == matches;
    days := RoundHundredths(totalDays);
  }

  // Properties of the retention-string scan

  /** After a non-digit the scan has forgotten its past: it restarts on what follows. */
  lemma {:induction false} ScanTokensAppend(run: string, a: string, b: string)
    requires a != [] && !IsDigit(a[|a| - 1])
    ensures ScanTokens(run, a + b) == ScanTokens(run, a) + ScanTokens([], b)
    decreases |a|
  {
    var ab := a + b;
    assert ab[0] == a[0];
    if |a| == 1 {
      assert ab[1..] == b;
    } else {
      assert ab[1..] == a[1..] + b;
      if IsDigit(a[0]) {
        ScanTokensAppend(run + [a[0]], a[1..], b);
      } else {
        ScanTokensAppend([], a[1..], b);
      }
    }
  }

  /**
   * The matches of a concatenation are the matches of each part, when the
   * first part does not end inside a number.
   */
  lemma FindTokensAppend(a: string, b: string)
    requires a == [] || !IsDigit(a[|a| - 1])
    ensures FindTokens(a + b) == FindTokens(a) + FindTokens(b)
  {
    if a == [] {
      assert a + b == b;
    } else {
      ScanTokensAppend([], a, b);
    }
  }

  /** int() ignores leading zeros. */
  lemma {:induction false} DigitsValueLeadingZero(ds: string)
    ensures DigitsValue("0" + ds) == DigitsValue(ds)
    decreases |ds|
  {
    var z := "0" + ds;
    if ds == [] {
      assert z[..|z| - 1] == [];
    } else {
      assert z[..|z| - 1] == "0" + ds[..|ds| - 1];
      assert z[|z| - 1] == ds[|ds| - 1];
      DigitsValueLeadingZero(ds[..|ds| - 1]);
    }
  }

  /** A string with no digit holds no match: a unit letter alone is skipped. */
  lemma {:induction false} ScanTokensWithoutDigits(s: string)
    requires forall i :: 0 <= i < |s| ==> !IsDigit(s[i])
    ensures ScanTokens([], s) == []
    decreases |s|
  {
    if s != [] {
      ScanTokensWithoutDigits(s[1..]);
    }
  }

  /** A string with no unit letter holds no match. */
  lemma {:induction false} ScanTokensWithoutUnits(run: string, s: string)
    requires forall i :: 0 <= i < |s| ==> !IsUnit(s[i])
    ensures ScanTokens(run, s) == []
    decreases |s|
  {
    if s != [] {
      if IsDigit(s[0]) {
        ScanTokensWithoutUnits(run + [s[0]], s[1..]);
      } else {
        ScanTokensWithoutUnits([], s[1..]);
      }
    }
  }

  /** Digits followed by a unit letter extend the pending run into one match. */
  lemma {:induction false} ScanTokensOfOneToken(run: string, ds: string, unit: char)
    requires forall i :: 0 <= i < |ds| ==> IsDigit(ds[i])
    requires run + ds != [] && IsUnit(unit)
    ensures ScanTokens(run, ds + [unit]) == [Token(run + ds, unit)]
    decreases |ds|
  {
    var s := ds + [unit];
    if ds == [] {
      assert s == [unit] && run + ds == run;
    } else {
      assert s[0] == ds[0] && s[1..] == ds[1..] + [unit];
      assert run + ds == (run + [ds[0]]) + ds[1..];
      ScanTokensOfOneToken(run + [ds[0]], ds[1..], unit);
    }
  }

  /** Lower-casing commutes with concatenation and keeps digits and lower-case letters. */
  lemma LowerAppend(a: string, b: string)
    ensures Lower(a + b) == Lower(a) + Lower(b)
  {
  }

  /**
   * The day count is additive over tokens: a retention string that splits
   * after a non-digit counts the days of its two parts.
   */
  lemma DayCountAppend(a: string, b: string)
    requires a == [] || !IsDigit(a[|a| - 1])
    ensures DayCount(a + b) == DayCount(a) + DayCount(b)
  {
    LowerAppend(a, b);
    FindTokensAppend(Lower(a), Lower(b));
    TotalMinutesAppend(FindTokens(Lower(a)), FindTokens(Lower(b)));
  }

  /** One token counts its value as days, hours or minutes, in either case. */
  lemma DayCountOfOneToken(ds: string, unit: char)
    requires ds != [] && forall i :: 0 <= i < |ds| ==> IsDigit(ds[i])
    requires IsUnit(LowerChar(unit))
    ensures DayCount(ds + [unit]) == (DigitsValue(ds) * UnitMinutes(LowerChar(unit))) as real / 1440.0
  {
    var u := LowerChar(unit);
    LowerOfToken(ds, unit);
    assert FindTokens(ds + [u]) == [Token(ds, u)] by {
      ScanTokensOfOneToken([], ds, u);
      assert [] + ds == ds;
    }
    assert TotalMinutes([Token(ds, u)]) == TokenMinutes(Token(ds, u));
  }

  lemma LowerOfToken(ds: string, unit: char)
    requires forall i :: 0 <= i < |ds| ==> IsDigit(ds[i])
    ensures Lower(ds + [unit]) == ds + [LowerChar(unit)]
  {
    var s := ds + [unit];
    forall i | 0 <= i < |ds| ensures LowerChar(s[i]) == ds[i] {
      assert s[i] == ds[i] && IsDigit(ds[i]);
    }
  }

  /** A string without d, h or m in either case counts no days: seconds and weeks are dropped. */
  lemma DayCountWithoutUnits(s: string)
    requires forall i :: 0 <= i < |s| ==> !IsUnit(LowerChar(s[i]))
    ensures DayCount(s) == 0.0
  {
    ScanTokensWithoutUnits([], Lower(s));
  }

  /** A string with no digit counts no days, whatever letters it holds. */
  lemma DayCountWithoutDigits(s: string)
    requires forall i :: 0 <= i < |s| ==> !IsDigit(s[i])
    ensures DayCount(s) == 0.0
  {
    ScanTokensWithoutDigits(Lower(s));
  }

  /** A unit letter with no digits before it, as the second `d` of "3dd", adds nothing. */
  lemma DayCountOfRepeatedUnit()
    ensures DayCount("3dd") == 3.0
  {
    assert "3dd" == "3d" + "d";
    DayCountAppend("3d", "d");
    assert "3d" == "3" + ['d'];
    DayCountOfOneToken("3", 'd');
    DayCountWithoutDigits("d");
  }

  /** The example from convert_day's documentation: "1d2h30m" is 1.10 days once rounded. */
  lemma ConvertDayExample()
    ensures DayCount("1d2h30m") == 1.0 + 2.0 / 24.0 + 30.0 / 1440.0
    ensures RoundHundredths(DayCount("1d2h30m")) == 1.1
  {
    ExampleTail();
    assert DayCount("1d") == 1.0 by {
      ExampleParts();
    }
    assert "1d2h30m" == "1d" + "2h30m";
    DayCountAppend("1d", "2h30m");
    HundredthsOfExample(DayCount("1d2h30m"));
  }

  lemma ExampleTail()
    ensures DayCount("2h30m") == 2.0 / 24.0 + 30.0 / 1440.0
  {
    ExampleParts();
    assert "2h30m" == "2h" + "30m";
    DayCountAppend("2h", "30m");
  }

  lemma ExampleParts()
    ensures DayCount("1d") == 1.0 && DayCount("2h") == 2.0 / 24.0 && DayCount("30m") == 30.0 / 1440.0
  {
    assert DayCount("1d") == 1.0 by {
      assert "1d" == "1" + ['d'];
      DayCountOfOneToken("1", 'd');
    }
    assert DayCount("2h") == 2.0 / 24.0 by {
      assert "2h" == "2" + ['h'];
      DayCountOfOneToken("2", 'h');
    }
    assert DayCount("30m") == 30.0 / 1440.0 by {
      assert "30m" == "30" + ['m'];
      assert DigitsValue("30") == 30 by {
        assert "30"[..1] == "3";
      }
      DayCountOfOneToken("30", 'm');
    }
  }

  lemma HundredthsOfExample(x: real)
    requires x == 1.0 + 2.0 / 24.0 + 30.0 / 1440.0
    ensures RoundHundredths(x) == 1.1
  {
    assert RoundHalfEven(x * 100.0) == 110;
  }

  /**
   * time_difference(time_from, time_to): the `days` of the UTC timedelta,
   * that is the difference in seconds divided by 86400, rounded down.
   */
  function TimeDifference(timeFrom: int, timeTo: int): (d: int)
    ensures d * 86400 <= timeTo - timeFrom < (d + 1) * 86400
    ensures 0 <= timeTo - timeFrom < 86400 ==> d == 0
    ensures timeTo < timeFrom ==> d < 0
  {
    (timeTo - timeFrom) / 86400
  }
}
