/** Weekly date sampling (`generate_weekly_dates`) over day ordinals, and the
    `%Y-%m-%d` rendering of a day ordinal as an ISO 8601 calendar date. */
module Dates {
  import opened Common

  /** Days between two samples: `timedelta(weeks=1)`. */
  const Week: int := 7

  /** The number of samples from `start` to `end` inclusive. */
  function WeekCount(start: int, end: int): nat
  {
    if start <= end then (end - start) / Week + 1 else 0
  }

  /** The reference list of sampled days: every week from `start` while not past `end`. */
  function WeeklyDates(start: int, end: int): (dates: seq<int>)
  {
    seq(WeekCount(start, end), k => start + Week * k)
  }

  /** `generate_weekly_dates` with a pinned end date: the loop appends the
      current day and advances by one week while the current day is not after
      the end. */
  method GenerateWeeklyDates(start: int, end: int) returns (dates: seq<int>)
    ensures dates == WeeklyDates(start, end)
  {
    dates := [];
    var current := start;
    while current <= end
      invariant current == start + Week * |dates|
      invariant forall k :: 0 <= k < |dates| ==> dates[k] == start + Week * k
      invariant dates != [] ==> current - Week <= end
      invariant start > end ==> dates == []
      decreases end - current
    {
      dates := dates + [current];
      current := current + Week;
    }
    assert |dates| == WeekCount(start, end) by {
      if start <= end {
        assert |dates| >= 1;
        assert start + Week * (|dates| - 1) <= end < start + Week * |dates|;
      }
    }
  }

  /** What the sampler promises: the list starts at `start`, consecutive days are
      a week apart, no day is after `end` and the next week would be; when
      `start > end` the list is empty (no error is raised). */
  lemma WeeklyDatesShape(start: int, end: int)
    ensures var d := WeeklyDates(start, end);
      && (start <= end <==> d != [])
      && (d != [] ==> d[0] == start && end < d[|d| - 1] + Week)
      && (forall k :: 0 <= k < |d| ==> d[k] <= end)
      && (forall k :: 0 < k < |d| ==> d[k] == d[k - 1] + Week)
  {
    var d := WeeklyDates(start, end);
    if start <= end {
      var n := |d|;
      assert n - 1 == (end - start) / Week;
      assert d[n - 1] == start + Week * (n - 1);
      forall k | 0 <= k < n
        ensures d[k] <= end
      {
        assert d[k] == start + Week * k;
        assert Week * k <= Week * (n - 1);
      }
    }
  }

  /** The proleptic Gregorian (year, month, day) of a day ordinal, 0001-01-01
      being day 1 as in Python's `date.toordinal`. */
  function CivilFromOrdinal(ordinal: int): (ymd: (int, int, int))
  {
    var z := ordinal + 305;                 // days since 0000-03-01
    var era := z / 146097;                  // 400-year eras, floor division
    var doe := z - era * 146097;            // day of era, 0 .. 146096
    var yoe := (doe - doe / 1460 + doe / 36524 - doe / 146096) / 365;
    var doy := doe - (365 * yoe + yoe / 4 - yoe / 100);
    var mp := (5 * doy + 2) / 153;          // month counted from March
    var day := doy - (153 * mp + 2) / 5 + 1;
    var month := if mp < 10 then mp + 3 else mp - 9;
    var year := yoe + era * 400 + (if month <= 2 then 1 else 0);
    (year, month, day)
  }

  function Pad(n: int, width: nat): string
  {
    if n >= 0 then PadLeft(n, width) else "-" + PadLeft(-n, width)
  }

  /** `strftime("%Y-%m-%d")` of a day ordinal. */
  function IsoDate(ordinal: int): (s: string)
  {
    var (y, m, d) := CivilFromOrdinal(ordinal);
    Pad(y, 4) + "-" + Pad(m, 2) + "-" + Pad(d, 2)
  }

  /** The ordinal of 2023-01-01, the configured start date. */
  const StartOrdinal2023: int := 738521

  /** Sampling 2023-01-01 .. 2023-01-22 weekly gives exactly four days, one week apart. */
  lemma WeeklyDatesExample()
    ensures WeeklyDates(StartOrdinal2023, StartOrdinal2023 + 21)
      == [StartOrdinal2023, StartOrdinal2023 + 7, StartOrdinal2023 + 14, StartOrdinal2023 + 21]
  {
  }

  /** Every day of January 2023 is converted to year 2023, month 1 and its day number. */
  lemma CivilJanuary2023(day: int)
    requires 1 <= day <= 31
    ensures CivilFromOrdinal(StartOrdinal2023 - 1 + day) == (2023, 1, day)
  {
    var z := StartOrdinal2023 - 1 + day + 305;
    assert z / 146097 == 5;
    var doe := z - 5 * 146097;
    assert doe == 8340 + day;
    assert doe / 1460 == 5 && doe / 36524 == 0 && doe / 146096 == 0;
    assert (doe - 5) / 365 == 22;
    assert 22 / 4 == 5 && 22 / 100 == 0;
    var doy := doe - (365 * 22 + 5);
    assert doy == 305 + day;
    assert (5 * doy + 2) / 153 == 10;
    assert (153 * 10 + 2) / 5 == 306;
  }

  /** A day of January 2023 renders as "2023-01-" and its two-digit day:
      2023-01-01 for day 1, 2023-01-22 for day 22. */
  lemma IsoDateJanuary2023(day: int)
    requires 1 <= day <= 31
    ensures IsoDate(StartOrdinal2023 - 1 + day) == "2023-01-" + [Digit(day / 10), Digit(day % 10)]
  {
    CivilJanuary2023(day);
    JanuaryPrefix();
    PadTwoDigits(day);
  }

  lemma JanuaryPrefix()
    ensures Pad(2023, 4) + "-" + Pad(1, 2) + "-" == "2023-01-"
  {
    assert PadLeft(2023, 4) == "2023" && PadLeft(1, 2) == "01";
  }
}
