/**
 * The weekly performance summary computed from a daily price series
 * (`fetch_stock_performance` without its HTTP request).
 *
 * Dates are day numbers: the provider's "YYYY-MM-DD" keys and `str(today)`
 * are compared as strings, and for dates in that fixed format string order
 * and day order agree.  A field of a day record is `None` when its key is
 * missing or when `float(...)` cannot parse it.
 */
module Performance {
  import opened Wrappers
  import opened Extrema

  type Day = int

  /** Length of the trailing window, `timedelta(days=7)`. */
  const WindowLength: int := 7

  /** One entry of "Time Series (Daily)": the "2. high", "3. low" and "4. close" fields. */
  datatype DayRecord = DayRecord(high: Option<real>, low: Option<real>, close: Option<real>)

  /** The decoded "Time Series (Daily)" object; empty when the provider sent none. */
  type Series = map<Day, DayRecord>

  datatype Summary = Summary(latestClose: real, changePercent: real, weeklyHigh: real, weeklyLow: real)

  /**
   * What one call produces: a summary, `None` (no data, a missing field or a
   * field that does not parse), or a ZeroDivisionError, which the source's
   * `except (requests.RequestException, KeyError, ValueError)` does not catch.
   */
  datatype Outcome = Computed(summary: Summary) | NoSummary | ZeroPastClose

  function WeekAgo(today: Day): Day {
    today - WindowLength
  }

  /** Keys of the trailing window `[today - 7, today]`. */
  function Window(series: Series, today: Day): set<Day> {
    set d | d in series && WeekAgo(today) <= d <= today
  }

  /** The greatest key not after `today`, or `None` when every key is in the future. */
  function LatestDate(series: Series, today: Day): (r: Option<Day>)
    ensures r.None? <==> forall d :: d in series ==> today < d
    ensures r.Some? ==> r.value in series && r.value <= today
    ensures r.Some? ==> forall d :: d in series && d <= today ==> d <= r.value
  {
    var upToToday := set d | d in series && d <= today;
    assert forall d :: d in series && d <= today ==> d in upToToday;
    if upToToday == {} then None else Some(Greatest(upToToday))
  }

  /**
   * The least key not before `today - 7` (future keys included), falling
   * back to `latest` when there is none.
   */
  function PastDate(series: Series, today: Day, latest: Day): (r: Day)
    requires latest in series
    ensures r in series
    ensures (exists d :: d in series && WeekAgo(today) <= d) ==>
              WeekAgo(today) <= r && forall d :: d in series && WeekAgo(today) <= d ==> r <= d
    ensures (forall d :: d in series ==> d < WeekAgo(today)) ==> r == latest
  {
    var fromWeekAgo := set d | d in series && WeekAgo(today) <= d;
    assert forall d :: d in series && WeekAgo(today) <= d ==> d in fromWeekAgo;
    if fromWeekAgo == {} then latest else Least(fromWeekAgo)
  }

  /** `((latest_close - past_close) / past_close) * 100`; the caller rules out a zero divisor. */
  function ChangePercent(latestClose: real, pastClose: real): real
    requires pastClose != 0.0
  {
    (latestClose - pastClose) / pastClose * 100.0
  }

  /**
   * The change is the percent move from the past close to the latest close;
   * with a positive past close it is non-negative exactly when the price did
   * not fall, and zero exactly when it did not move.
   */
  lemma ChangePercentMeaning(latestClose: real, pastClose: real)
    requires pastClose != 0.0
    ensures ChangePercent(latestClose, pastClose) * pastClose == (latestClose - pastClose) * 100.0
    ensures 0.0 < pastClose ==> (0.0 <= ChangePercent(latestClose, pastClose) <==> pastClose <= latestClose)
    ensures 0.0 < pastClose ==> (ChangePercent(latestClose, pastClose) == 0.0 <==> pastClose == latestClose)
  {
  }

  predicate HighsParse(series: Series, today: Day) {
    forall d :: d in Window(series, today) ==> series[d].high.Some?
  }

  predicate LowsParse(series: Series, today: Day) {
    forall d :: d in Window(series, today) ==> series[d].low.Some?
  }

  /** The highs of the window, the values `max(...)` ranges over. */
  function Highs(series: Series, today: Day): set<real>
    requires HighsParse(series, today)
  {
    set d | d in Window(series, today) :: series[d].high.value
  }

  /** The lows of the window, the values `min(...)` ranges over. */
  function Lows(series: Series, today: Day): set<real>
    requires LowsParse(series, today)
  {
    set d | d in Window(series, today) :: series[d].low.value
  }

  lemma WindowValuesNonEmpty(series: Series, today: Day)
    requires HighsParse(series, today) && LowsParse(series, today)
    requires Window(series, today) != {}
    ensures Highs(series, today) != {} && Lows(series, today) != {}
  {
    var d :| d in Window(series, today);
    assert series[d].high.value in Highs(series, today);
    assert series[d].low.value in Lows(series, today);
  }

  /**
   * The whole computation, in the source's order of evaluation: an empty
   * series, no key up to today, an unusable latest or past close give
   * `None`; a zero past close raises; then every high and every low of the
   * window must parse.  An empty window gives the latest close as both
   * weekly high and weekly low.
   */
  function WeeklyPerformance(series: Series, today: Day): (r: Outcome)
    ensures (forall d :: d in series ==> today < d) ==> r == NoSummary
    ensures r.Computed? ==> LatestDate(series, today).Some?
    ensures r.Computed? ==>
              series[LatestDate(series, today).value].close == Some(r.summary.latestClose)
  {
    if series == map[] then NoSummary
    else match LatestDate(series, today)
      case None => NoSummary
      case Some(latest) =>
        var past := PastDate(series, today, latest);
        var latestClose := series[latest].close;
        var pastClose := series[past].close;
        if latestClose.None? || pastClose.None? then NoSummary
        else if pastClose.value == 0.0 then ZeroPastClose
        else if !HighsParse(series, today) || !LowsParse(series, today) then NoSummary
        else
          var window := Window(series, today);
          var high := if window == {} then latestClose.value
                      else (WindowValuesNonEmpty(series, today); Maximum(Highs(series, today)));
          var low := if window == {} then latestClose.value
                     else (WindowValuesNonEmpty(series, today); Minimum(Lows(series, today)));
          Computed(Summary(latestClose.value, ChangePercent(latestClose.value, pastClose.value), high, low))
  }

  /** When no key lies after `today`, the past date never follows the latest date. */
  lemma PastNotAfterLatest(series: Series, today: Day)
    requires forall d :: d in series ==> d <= today
    requires LatestDate(series, today).Some?
    ensures PastDate(series, today, LatestDate(series, today).value) <= LatestDate(series, today).value
  {
    var latest := LatestDate(series, today).value;
    var past := PastDate(series, today, latest);
    assert past in series && past <= today;
  }

  /**
   * A key after `today` is never the latest date but can be the past date:
   * with one key a month ago and one tomorrow, the change is measured
   * backwards in time.
   */
  lemma FutureKeyCanBePastDate()
    ensures var series := map[0 := DayRecord(Some(11.0), Some(9.0), Some(10.0)),
                              31 := DayRecord(Some(21.0), Some(19.0), Some(20.0))];
            && LatestDate(series, 30) == Some(0)
            && PastDate(series, 30, 0) == 31
            && WeeklyPerformance(series, 30) == Computed(Summary(10.0, -50.0, 10.0, 10.0))
  {
    var series := map[0 := DayRecord(Some(11.0), Some(9.0), Some(10.0)),
                      31 := DayRecord(Some(21.0), Some(19.0), Some(20.0))];
    assert series.Keys == {0, 31};
    assert 0 in series && 0 <= 30;
    assert 31 in series && WeekAgo(30) <= 31;
    assert Window(series, 30) == {};
  }

  /**
   * The weekly high and low are the maximum of the highs and the minimum of
   * the lows over exactly the days in `[today - 7, today]`, and both are the
   * latest close when that window holds no day.
   */
  lemma WeeklyRangeIsWindowExtremes(series: Series, today: Day)
    requires WeeklyPerformance(series, today).Computed?
    ensures var s := WeeklyPerformance(series, today).summary;
            Window(series, today) == {} ==> s.weeklyHigh == s.latestClose && s.weeklyLow == s.latestClose
    ensures var s := WeeklyPerformance(series, today).summary;
            forall d :: d in series && WeekAgo(today) <= d <= today ==>
              && series[d].high.Some? && series[d].high.value <= s.weeklyHigh
              && series[d].low.Some? && s.weeklyLow <= series[d].low.value
    ensures var s := WeeklyPerformance(series, today).summary;
            Window(series, today) != {} ==>
              && (exists d :: d in Window(series, today) && series[d].high == Some(s.weeklyHigh))
              && (exists d :: d in Window(series, today) && series[d].low == Some(s.weeklyLow))
  {
    var s := WeeklyPerformance(series, today).summary;
    assert HighsParse(series, today) && LowsParse(series, today);
    assert forall d :: d in series && WeekAgo(today) <= d <= today ==> d in Window(series, today);
    if Window(series, today) != {} {
      WindowValuesNonEmpty(series, today);
      assert s.weeklyHigh == Maximum(Highs(series, today));
      assert s.weeklyLow == Minimum(Lows(series, today));
      forall d | d in series && WeekAgo(today) <= d <= today
        ensures series[d].high.value <= s.weeklyHigh && s.weeklyLow <= series[d].low.value
      {
        assert d in Window(series, today);
        assert series[d].high.value in Highs(series, today);
        assert series[d].low.value in Lows(series, today);
      }
      var h :| h in Window(series, today) && series[h].high.value == s.weeklyHigh;
      var l :| l in Window(series, today) && series[l].low.value == s.weeklyLow;
    }
  }

  /** The weekly low is at most the weekly high whenever every window day has low <= high. */
  lemma WeeklyLowNotAboveHigh(series: Series, today: Day)
    requires WeeklyPerformance(series, today).Computed?
    requires forall d :: d in Window(series, today) && series[d].low.Some? && series[d].high.Some? ==>
               series[d].low.value <= series[d].high.value
    ensures WeeklyPerformance(series, today).summary.weeklyLow <= WeeklyPerformance(series, today).summary.weeklyHigh
  {
    WeeklyRangeIsWindowExtremes(series, today);
    if Window(series, today) != {} {
      var d :| d in Window(series, today);
      assert d in series && WeekAgo(today) <= d <= today;
    }
  }

  /**
   * A computed change is the percent change from the past close to the
   * latest close; with a positive past close it is non-negative exactly when
   * the price did not fall.
   */
  lemma ChangeFollowsCloses(series: Series, today: Day)
    requires WeeklyPerformance(series, today).Computed?
    ensures var s := WeeklyPerformance(series, today).summary;
            var past := series[PastDate(series, today, LatestDate(series, today).value)].close;
            && past.Some? && past.value != 0.0
            && s.changePercent * past.value == (s.latestClose - past.value) * 100.0
            && (0.0 < past.value ==> (0.0 <= s.changePercent <==> past.value <= s.latestClose))
  {
  }

  /**
   * A missing or unparsable field among the ones used gives `None`, not a
   * failure: the latest or past close, or (past a non-zero past close) any
   * high or low of the window.
   */
  lemma UnusableFieldGivesNoSummary(series: Series, today: Day)
    requires LatestDate(series, today).Some?
    ensures var latest := LatestDate(series, today).value;
            series[latest].close.None? ==> WeeklyPerformance(series, today) == NoSummary
    ensures var latest := LatestDate(series, today).value;
            series[PastDate(series, today, latest)].close.None? ==> WeeklyPerformance(series, today) == NoSummary
    ensures var latest := LatestDate(series, today).value;
            var past := PastDate(series, today, latest);
            (series[past].close.Some? && series[past].close.value != 0.0 &&
             exists d :: d in Window(series, today) && (series[d].high.None? || series[d].low.None?))
            ==> WeeklyPerformance(series, today) != ZeroPastClose && !WeeklyPerformance(series, today).Computed?
  {
    assert series != map[];
  }

  /**
   * A summary is computed exactly when a key up to today exists, both closes
   * parse, the past close is non-zero, and every high and low of the window
   * parses.
   */
  lemma ComputedIff(series: Series, today: Day)
    ensures WeeklyPerformance(series, today).Computed? <==>
              && LatestDate(series, today).Some?
              && series[LatestDate(series, today).value].close.Some?
              && series[PastDate(series, today, LatestDate(series, today).value)].close.Some?
              && series[PastDate(series, today, LatestDate(series, today).value)].close.value != 0.0
              && HighsParse(series, today) && LowsParse(series, today)
  {
    if LatestDate(series, today).Some? {
      assert series != map[];
    }
  }

  /**
   * ZeroDivisionError escapes exactly when the latest close parses and the
   * past close parses to zero.
   */
  lemma ZeroPastCloseIff(series: Series, today: Day)
    ensures WeeklyPerformance(series, today) == ZeroPastClose <==>
              && LatestDate(series, today).Some?
              && series[LatestDate(series, today).value].close.Some?
              && series[PastDate(series, today, LatestDate(series, today).value)].close == Some(0.0)
  {
    if LatestDate(series, today).Some? {
      assert series != map[];
    }
  }

  /**
   * When the latest date is the only day of the window, the weekly high and
   * low are that day's own high and low, not its close.
   */
  lemma SingleDayWindow(series: Series, today: Day)
    requires WeeklyPerformance(series, today).Computed?
    requires Window(series, today) == {LatestDate(series, today).value}
    ensures var latest := LatestDate(series, today).value;
            var s := WeeklyPerformance(series, today).summary;
            series[latest].high == Some(s.weeklyHigh) && series[latest].low == Some(s.weeklyLow)
  {
    WeeklyRangeIsWindowExtremes(series, today);
  }

  /**
   * Two days four days apart, `today` the second: the change is 10%, the
   * weekly high the second day's high and the weekly low the first day's low.
   */
  lemma TwoDayExample(first: Day)
    ensures var series := map[first := DayRecord(Some(101.0), Some(99.0), Some(100.0)),
                              first + 4 := DayRecord(Some(112.0), Some(108.0), Some(110.0))];
            WeeklyPerformance(series, first + 4) == Computed(Summary(110.0, 10.0, 112.0, 99.0))
  {
    var series := map[first := DayRecord(Some(101.0), Some(99.0), Some(100.0)),
                      first + 4 := DayRecord(Some(112.0), Some(108.0), Some(110.0))];
    var today := first + 4;
    assert series.Keys == {first, first + 4};
    assert first + 4 in series;
    assert first in series && WeekAgo(today) <= first;
    assert LatestDate(series, today) == Some(first + 4);
    assert PastDate(series, today, first + 4) == first;
    assert Window(series, today) == {first, first + 4};
    assert HighsParse(series, today) && LowsParse(series, today);
    assert Highs(series, today) == {101.0, 112.0} by {
      assert series[first].high.value in Highs(series, today);
      assert series[first + 4].high.value in Highs(series, today);
    }
    assert Lows(series, today) == {99.0, 108.0} by {
      assert series[first].low.value in Lows(series, today);
      assert series[first + 4].low.value in Lows(series, today);
    }
    assert Maximum({101.0, 112.0}) == 112.0;
    assert Minimum({99.0, 108.0}) == 99.0;
  }
}
