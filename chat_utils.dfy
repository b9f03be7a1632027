/** Timing helpers of the chat monitor: the pause timeout, the maximum
    processing time, the remaining time, the human-readable duration and the
    one-line status message. The clock (`Date.now()`) is a parameter `now`,
    in whole milliseconds like the timestamps it is compared with. */
module ChatUtils {
  import opened Optional
  import opened Text

  /** The defaults recommended for working with MCP servers. */
  datatype RecommendedSettings = RecommendedSettings(
    checkInterval: int, pauseThreshold: int, maxWaitTime: int, enableEntryStatusCheck: bool)

  function GetRecommendedMcpConfig(): (c: RecommendedSettings)
    ensures c.checkInterval == 4 && c.pauseThreshold == 45
    ensures c.maxWaitTime == 600 && c.enableEntryStatusCheck
    ensures c.pauseThreshold * 2 < c.maxWaitTime
  {
    RecommendedSettings(4, 45, 600, true)
  }

  /** Milliseconds between two clock readings, as seconds. */
  function SecondsSince(start: int, now: int): real {
    (now - start) as real / 1000.0
  }

  /** `Math.round`: halves go up. */
  function Round(x: real): int {
    (x + 0.5).Floor
  }

  /** The pause timeout has elapsed: the threshold is doubled once the chat
      was seen summarising its history. In whole milliseconds, it fires
      exactly when at least the (possibly doubled) threshold has passed
      since the last change. */
  function ShouldTriggerTimeout(lastChangeTime: int, pauseThreshold: int, summarizationDetected: bool, now: int): (fire: bool)
    ensures fire <==> now - lastChangeTime >= 1000 * (if summarizationDetected then 2 * pauseThreshold else pauseThreshold)
  {
    var adjusted := if summarizationDetected then pauseThreshold * 2 else pauseThreshold;
    SecondsSince(lastChangeTime, now) >= adjusted as real
  }

  /** Summarisation only ever delays the timeout: whatever fires with it
      fires without it, and nothing fires before the plain threshold. */
  lemma SummarizationOnlyDelays(lastChangeTime: int, pauseThreshold: int, now: int)
    requires pauseThreshold >= 0
    ensures ShouldTriggerTimeout(lastChangeTime, pauseThreshold, true, now)
        ==> ShouldTriggerTimeout(lastChangeTime, pauseThreshold, false, now)
    ensures ShouldTriggerTimeout(lastChangeTime, pauseThreshold, false, now)
        ==> now - lastChangeTime >= 1000 * pauseThreshold
  {
  }

  /** The maximum processing time has passed: in whole milliseconds, at
      least `maxWaitTime` seconds since processing started. */
  function IsMaxWaitTimeExceeded(processingStartTime: int, maxWaitTime: int, now: int): (exceeded: bool)
    ensures exceeded <==> now - processingStartTime >= 1000 * maxWaitTime
  {
    SecondsSince(processingStartTime, now) >= maxWaitTime as real
  }

  /** Seconds left before the maximum processing time, never negative. */
  function GetRemainingProcessingTime(processingStartTime: int, maxWaitTime: int, now: int): (r: real)
    ensures r >= 0.0
    ensures r == 0.0 <==> IsMaxWaitTimeExceeded(processingStartTime, maxWaitTime, now)
    ensures r > 0.0 ==> r + SecondsSince(processingStartTime, now) == maxWaitTime as real
    ensures now >= processingStartTime && maxWaitTime >= 0 ==> r <= maxWaitTime as real
  {
    var left := maxWaitTime as real - SecondsSince(processingStartTime, now);
    if left > 0.0 then left else 0.0
  }

  /** The pieces a duration is printed from: plain seconds, minutes and
      seconds, or hours and minutes. */
  datatype Clock = Secs(s: int) | MinSec(m: int, s: int) | HourMin(h: int, m: int)

  function Render(c: Clock): string {
    match c
    case Secs(s) => IntToString(s) + "с"
    case MinSec(m, s) => if s > 0 then IntToString(m) + "м " + IntToString(s) + "с" else IntToString(m) + "м"
    case HourMin(h, m) => if m > 0 then IntToString(h) + "ч " + IntToString(m) + "м" else IntToString(h) + "ч"
  }

  /** The breakdown `formatTime` computes: the band is chosen on the
      unrounded value and the seconds are rounded after the modulo. */
  function WrittenBreakdown(x: real): Clock {
    if x < 60.0 then Secs(Round(x))
    else if x < 3600.0 then
      var m := (x / 60.0).Floor;
      MinSec(m, Round(x - 60.0 * m as real))
    else
      var h := (x / 3600.0).Floor;
      HourMin(h, ((x - 3600.0 * h as real) / 60.0).Floor)
  }

  /** `formatTime`. On a whole number of seconds it prints the breakdown
      whose fields all stay in range. The last character names the unit;
      seconds are printed only below an hour. */
  function FormatTime(x: real): (r: string)
    ensures x == x.Floor as real ==> r == Render(WholeBreakdown(x.Floor))
    ensures |r| >= 2 && r[|r| - 1] in {'с', 'м', 'ч'}
    ensures x < 60.0 ==> r[|r| - 1] == 'с'
    ensures r[|r| - 1] == 'с' ==> x < 3600.0
  {
    WrittenOnWholeSeconds(x);
    Render(WrittenBreakdown(x))
  }

  /** As written, minutes and seconds still add up to the rounded duration,
      but the seconds field can reach 60. */
  lemma WrittenMinutesAndSeconds(x: real)
    requires 60.0 <= x < 3600.0
    ensures WrittenBreakdown(x).MinSec?
    ensures 60 * WrittenBreakdown(x).m + WrittenBreakdown(x).s == Round(x)
    ensures 0 <= WrittenBreakdown(x).s <= 60
  {
    var m := (x / 60.0).Floor;
    assert Round(x - 60.0 * m as real) == Round(x) - 60 * m by {
      assert (x - 60.0 * m as real) + 0.5 == (x + 0.5) - (60 * m) as real;
    }
  }

  /** A duration just short of two minutes is printed with sixty seconds. */
  lemma FormatTimeShowsSixtySeconds()
    ensures WrittenBreakdown(119.5) == MinSec(1, 60)
    ensures FormatTime(119.5) == "1м 60с"
  {
    assert (119.5 / 60.0).Floor == 1;
    assert Round(119.5 - 60.0) == 60;
    assert NatToString(60) == "60" by {
      assert NatToString(6) == "6";
      assert NatToString(0) == "0";
    }
    assert IntToString(1) == "1";
  }

  /** Whole seconds broken down so that every field stays in its range. */
  function WholeBreakdown(n: int): (c: Clock)
    ensures c.Secs? ==> c.s == n && n < 60
    ensures c.MinSec? ==> 60 * c.m + c.s == n && 0 <= c.s < 60 && 1 <= c.m < 60
    ensures c.HourMin? ==> 3600 * c.h + 60 * c.m <= n < 3600 * c.h + 60 * c.m + 60 && 0 <= c.m < 60 && c.h >= 1
  {
    if n < 60 then Secs(n)
    else if n < 3600 then MinSec(n / 60, n % 60)
    else HourMin(n / 3600, (n % 3600) / 60)
  }

  /** On a whole number of seconds `formatTime` computes the in-range
      breakdown: nothing is left to round. */
  lemma WrittenOnWholeSeconds(x: real)
    ensures x == x.Floor as real ==> WrittenBreakdown(x) == WholeBreakdown(x.Floor)
  {
    if x == x.Floor as real {
      var n := x.Floor;
      assert Round(x) == n;
      if 60 <= n < 3600 {
        var m := (x / 60.0).Floor;
        assert m == n / 60 by {
          assert (n / 60) as real * 60.0 <= x < ((n / 60) as real + 1.0) * 60.0;
        }
        assert Round(x - 60.0 * m as real) == n % 60 by {
          assert x - 60.0 * m as real == (n % 60) as real;
        }
      } else if n >= 3600 {
        var h := (x / 3600.0).Floor;
        assert h == n / 3600 by {
          assert (n / 3600) as real * 3600.0 <= x < ((n / 3600) as real + 1.0) * 3600.0;
        }
        assert x - 3600.0 * h as real == (n % 3600) as real;
        assert ((x - 3600.0 * h as real) / 60.0).Floor == (n % 3600) / 60 by {
          var q := (n % 3600) / 60;
          assert q as real * 60.0 <= (n % 3600) as real < (q as real + 1.0) * 60.0;
        }
      }
    }
  }

  /** Below an hour the duration is rounded to whole seconds before the band
      is chosen, so a carry moves into the minutes; from an hour on the
      breakdown is the one `formatTime` computes. */
  function CorrectedBreakdown(x: real): (c: Clock)
    ensures c.Secs? ==> c.s == Round(x) && c.s < 60
    ensures c.MinSec? ==> 60 * c.m + c.s == Round(x) && 0 <= c.s < 60
    ensures c.HourMin? ==> 0 <= c.m < 60
  {
    if x < 3600.0 then WholeBreakdown(Round(x)) else WrittenBreakdown(x)
  }

  function FormatTimeCorrected(x: real): string {
    Render(CorrectedBreakdown(x))
  }

  /** The corrected breakdown agrees with `formatTime` wherever the rounding
      does not carry the seconds into the next minute. */
  lemma CorrectedAgreesBelowCarry(x: real)
    requires 60.0 <= x < 3600.0
    requires WrittenBreakdown(x).s < 60
    ensures CorrectedBreakdown(x) == WrittenBreakdown(x)
  {
    WrittenMinutesAndSeconds(x);
    var m := (x / 60.0).Floor;
    assert m < 60;
  }

  lemma CorrectedShowsTwoMinutes()
    ensures CorrectedBreakdown(119.5) == MinSec(2, 0)
    ensures FormatTimeCorrected(119.5) == "2м"
  {
    assert Round(119.5) == 120;
    assert IntToString(2) == "2";
  }

  /** The row is named only when both the entry id and the row number are
      truthy: a non-empty id and a row other than 0. */
  predicate NamesRow(entryId: Option<string>, rowNumber: Option<int>) {
    entryId.Some? && entryId.value != "" && rowNumber.Some? && rowNumber.value != 0
  }

  /** The running part of the status: how long since the last change, as
      `formatTime` prints it. */
  function ActiveMessage(lastChangeTime: int, now: int): (m: string)
    ensures |m| > 9 && m[..9] == "Активен (" && m[|m| - 1] == ')'
  {
    "Активен (" + FormatTime(SecondsSince(lastChangeTime, now)) + " с последнего изменения)"
  }

  /** `createStatusMessage`: "stopped", or how long since the last change
      and, when both are set, which row is being processed. */
  function CreateStatusMessage(isMonitoring: bool, lastChangeTime: int, entryId: Option<string>,
                               rowNumber: Option<int>, now: int): (r: string)
    ensures r == "Остановлен" <==> !isMonitoring
    ensures isMonitoring ==> |r| > 9 && r[..9] == "Активен ("
    ensures isMonitoring && NamesRow(entryId, rowNumber) ==>
      r == ActiveMessage(lastChangeTime, now) + " - запись " + IntToString(rowNumber.value)
    ensures isMonitoring && !NamesRow(entryId, rowNumber) ==> r == ActiveMessage(lastChangeTime, now)
    ensures isMonitoring ==> (r[|r| - 1] == ')' <==> !NamesRow(entryId, rowNumber))
  {
    if !isMonitoring then "Остановлен"
    else
      var message := ActiveMessage(lastChangeTime, now);
      if NamesRow(entryId, rowNumber)
      then message + " - запись " + IntToString(rowNumber.value)
      else message
  }

  /** A change 119.5 seconds ago is reported with sixty seconds. */
  lemma StatusShowsSixtySeconds()
    ensures CreateStatusMessage(true, 0, None, None, 119500) == "Активен (1м 60с с последнего изменения)"
  {
    var d := SecondsSince(0, 119500);
    assert d == 119.5;
    FormatTimeShowsSixtySeconds();
    assert ActiveMessage(0, 119500) == "Активен (" + FormatTime(d) + " с последнего изменения)";
    assert !NamesRow(None, None);
  }
}
