/**
 * The footer statistics, `calculate_statistics` (bmp280_x11_gui5.cpp:628-660): the
 * minimum, maximum and mean of each field over the readings of the history that are
 * at most `STATS_WINDOW` (300) seconds old, and how many there are.
 */
module Statistics {
  import opened Wrappers
  import opened Numeric
  import opened Samples
  import opened History

  /** `STATS_WINDOW`, in seconds. */
  const StatsWindow: int := 300

  datatype Stats = Stats(
    minTemp: real, maxTemp: real, avgTemp: real,
    minPress: real, maxPress: real, avgPress: real,
    count: nat)

  const NoStats := Stats(0.0, 0.0, 0.0, 0.0, 0.0, 0.0, 0)

  /** A reading taken into account at time `now`: `difftime(now, ts) <= STATS_WINDOW`. */
  predicate IsRecent(p: DataPoint, now: int) {
    now - p.timestamp <= StatsWindow
  }

  /** The recent readings of a run, in order. */
  function Recent(s: seq<DataPoint>, now: int): (r: seq<DataPoint>)
    ensures |r| <= |s|
  {
    if s == [] then []
    else Recent(s[..|s| - 1], now) + (if IsRecent(s[|s| - 1], now) then [s[|s| - 1]] else [])
  }

  /** `Recent` keeps exactly the recent readings. */
  lemma {:induction false} RecentMembers(s: seq<DataPoint>, now: int)
    ensures forall p | p in Recent(s, now) :: p in s && IsRecent(p, now)
    ensures forall k | 0 <= k < |s| && IsRecent(s[k], now) :: s[k] in Recent(s, now)
  {
    if s != [] {
      var init := s[..|s| - 1];
      RecentMembers(init, now);
      assert forall k | 0 <= k < |init| :: init[k] == s[k];
    }
  }

  function MinOf(a: real, b: real): real {
    if b < a then b else a
  }

  function MaxOf(a: real, b: real): real {
    if a < b then b else a
  }

  /** The least value of a field over a non-empty run. */
  function MinField(s: seq<DataPoint>, isTemp: bool): real
    requires s != []
  {
    if |s| == 1 then Field(s[0], isTemp) else MinOf(MinField(s[..|s| - 1], isTemp), Field(s[|s| - 1], isTemp))
  }

  /** The greatest value of a field over a non-empty run. */
  function MaxField(s: seq<DataPoint>, isTemp: bool): real
    requires s != []
  {
    if |s| == 1 then Field(s[0], isTemp) else MaxOf(MaxField(s[..|s| - 1], isTemp), Field(s[|s| - 1], isTemp))
  }

  /** The minimum and the maximum bound every value of the run and are both taken. */
  lemma {:induction false} ExtremaOf(s: seq<DataPoint>, isTemp: bool)
    requires s != []
    ensures forall k | 0 <= k < |s| :: MinField(s, isTemp) <= Field(s[k], isTemp) <= MaxField(s, isTemp)
    ensures exists k | 0 <= k < |s| :: MinField(s, isTemp) == Field(s[k], isTemp)
    ensures exists k | 0 <= k < |s| :: MaxField(s, isTemp) == Field(s[k], isTemp)
  {
    if |s| > 1 {
      var init := s[..|s| - 1];
      ExtremaOf(init, isTemp);
      assert forall k | 0 <= k < |init| :: init[k] == s[k];
      var last := |s| - 1;
      var lo :| 0 <= lo < |init| && MinField(init, isTemp) == Field(init[lo], isTemp);
      var hi :| 0 <= hi < |init| && MaxField(init, isTemp) == Field(init[hi], isTemp);
      if Field(s[last], isTemp) < MinField(init, isTemp) {
        assert MinField(s, isTemp) == Field(s[last], isTemp);
      } else {
        assert MinField(s, isTemp) == Field(s[lo], isTemp);
      }
      if MaxField(init, isTemp) < Field(s[last], isTemp) {
        assert MaxField(s, isTemp) == Field(s[last], isTemp);
      } else {
        assert MaxField(s, isTemp) == Field(s[hi], isTemp);
      }
    } else {
      assert MinField(s, isTemp) == Field(s[0], isTemp);
    }
  }

  /** The statistics `calculate_statistics` reports for a history at time `now`. */
  function StatsOf(s: seq<DataPoint>, now: int): Stats {
    var r := Recent(s, now);
    if r == [] then NoStats
    else Stats(MinField(r, true), MaxField(r, true), SumOf(r, true) / |r| as real,
               MinField(r, false), MaxField(r, false), SumOf(r, false) / |r| as real,
               |r|)
  }

  /**
   * The reported count is the number of recent readings; when there are any, each
   * minimum and maximum bounds that field of every recent reading and is the field
   * of one of them, and each mean lies between its minimum and maximum. With no
   * recent reading everything is 0.
   */
  lemma StatsMeaning(s: seq<DataPoint>, now: int)
    ensures StatsOf(s, now).count == |Recent(s, now)|
    ensures StatsOf(s, now).count == 0 ==> StatsOf(s, now) == NoStats
    ensures var st, r := StatsOf(s, now), Recent(s, now);
      st.count > 0 ==>
        (forall k | 0 <= k < |r| ::
          st.minTemp <= r[k].temperature.Value() <= st.maxTemp &&
          st.minPress <= r[k].pressure.Value() <= st.maxPress) &&
        (exists k | 0 <= k < |r| :: st.minTemp == r[k].temperature.Value()) &&
        (exists k | 0 <= k < |r| :: st.maxTemp == r[k].temperature.Value()) &&
        (exists k | 0 <= k < |r| :: st.minPress == r[k].pressure.Value()) &&
        (exists k | 0 <= k < |r| :: st.maxPress == r[k].pressure.Value()) &&
        st.minTemp <= st.avgTemp <= st.maxTemp &&
        st.minPress <= st.avgPress <= st.maxPress
  {
    var r := Recent(s, now);
    if r != [] {
      ExtremaOf(r, true);
      ExtremaOf(r, false);
      MeanWithin(r, true, MinField(r, true), MaxField(r, true));
      MeanWithin(r, false, MinField(r, false), MaxField(r, false));
    }
  }

  /** Readings that stay within the plausible ranges give statistics within them. */
  lemma StatsInRange(s: seq<DataPoint>, now: int)
    requires forall k | 0 <= k < |s| :: InRange(s[k])
    ensures var st := StatsOf(s, now);
      st.count > 0 ==>
        -40.0 <= st.minTemp && st.maxTemp <= 85.0 && -40.0 <= st.avgTemp <= 85.0 &&
        300.0 <= st.minPress && st.maxPress <= 1100.0 && 300.0 <= st.avgPress <= 1100.0
  {
    var r := Recent(s, now);
    RecentMembers(s, now);
    StatsMeaning(s, now);
    if r != [] {
      assert forall k | 0 <= k < |r| :: InRange(r[k]) by {
        forall k | 0 <= k < |r|
          ensures InRange(r[k])
        {
          assert r[k] in Recent(s, now);
        }
      }
      forall k | 0 <= k < |r|
        ensures -40.0 <= r[k].temperature.Value() <= 85.0 && 300.0 <= r[k].pressure.Value() <= 1100.0
      {
        InRangeMeaning(r[k]);
      }
    }
  }

  lemma RecentStep(s: seq<DataPoint>, i: nat, now: int)
    requires i < |s|
    ensures Recent(s[..i + 1], now) == Recent(s[..i], now) + (if IsRecent(s[i], now) then [s[i]] else [])
  {
    assert s[..i + 1][..i] == s[..i];
  }

  /** The extrema and count of a run, as the loop of `calculate_statistics` holds them. */
  function Partial(r: seq<DataPoint>): Stats {
    if r == [] then NoStats
    else Stats(MinField(r, true), MaxField(r, true), 0.0, MinField(r, false), MaxField(r, false), 0.0, |r|)
  }

  /**
   * The loop body of `calculate_statistics` for one recent reading: the first one
   * sets both extrema, later ones widen them, and the count goes up.
   */
  function Extend(stats: Stats, first: bool, t: real, p: real): Stats {
    if first then stats.(minTemp := t, maxTemp := t, minPress := p, maxPress := p, count := stats.count + 1)
    else stats.(minTemp := MinOf(stats.minTemp, t), maxTemp := MaxOf(stats.maxTemp, t),
                minPress := MinOf(stats.minPress, p), maxPress := MaxOf(stats.maxPress, p),
                count := stats.count + 1)
  }

  /** Adding a reading to a run extends its extrema and count as the loop does, and its sums. */
  lemma ExtendRun(r: seq<DataPoint>, x: DataPoint)
    ensures Partial(r + [x]) == Extend(Partial(r), r == [], Field(x, true), Field(x, false))
    ensures SumOf(r + [x], true) == SumOf(r, true) + Field(x, true)
    ensures SumOf(r + [x], false) == SumOf(r, false) + Field(x, false)
  {
    assert (r + [x])[..|r|] == r;
  }

  /**
   * `calculate_statistics`: one pass over the history, oldest first, skipping the
   * readings older than the window, then the two means.
   */
  method CalculateStatistics(history: CircularBuffer, now: int) returns (stats: Stats)
    requires history.Valid()
    ensures stats == StatsOf(history.Contents(), now)
  {
    if history.Size() == 0 {
      return NoStats;
    }
    var tempSum, pressSum;
    stats, tempSum, pressSum := Accumulate(history, now);
    if stats.count > 0 {
      stats := stats.(avgTemp := tempSum / stats.count as real, avgPress := pressSum / stats.count as real);
    }
  }

  /** The loop of `calculate_statistics`: extrema, count and sums of the recent readings. */
  method Accumulate(history: CircularBuffer, now: int) returns (stats: Stats, tempSum: real, pressSum: real)
    requires history.Valid()
    ensures var r := Recent(history.Contents(), now);
      stats == Partial(r) && tempSum == SumOf(r, true) && pressSum == SumOf(r, false)
  {
    ghost var c := history.Contents();
    stats := NoStats;
    tempSum, pressSum := 0.0, 0.0;
    var first := true;
    var i := 0;
    while i < history.Size()
      invariant 0 <= i <= |c|
      invariant stats == Partial(Recent(c[..i], now))
      invariant first == (Recent(c[..i], now) == [])
      invariant tempSum == SumOf(Recent(c[..i], now), true) && pressSum == SumOf(Recent(c[..i], now), false)
    {
      var point := history.At(i).value;
      assert point == c[i];
      ghost var r := Recent(c[..i], now);
      RecentStep(c, i, now);
      if now - point.timestamp <= StatsWindow {
        assert Recent(c[..i + 1], now) == r + [point];
        stats, tempSum, pressSum := Take(stats, first, tempSum, pressSum, r, point);
        first := false;
      } else {
        assert Recent(c[..i + 1], now) == r + [] == r;
      }
      i := i + 1;
    }
    assert c[..i] == c;
  }

  /** One recent reading in the loop of `calculate_statistics`. */
  method Take(stats: Stats, first: bool, tempSum: real, pressSum: real, ghost r: seq<DataPoint>, point: DataPoint)
    returns (stats': Stats, tempSum': real, pressSum': real)
    requires stats == Partial(r) && first == (r == [])
    requires tempSum == SumOf(r, true) && pressSum == SumOf(r, false)
    ensures stats' == Partial(r + [point])
    ensures tempSum' == SumOf(r + [point], true) && pressSum' == SumOf(r + [point], false)
  {
    ExtendRun(r, point);
    var t, p := point.temperature.Value(), point.pressure.Value();
    stats' := Extend(stats, first, t, p);
    tempSum', pressSum' := tempSum + t, pressSum + p;
  }
}
