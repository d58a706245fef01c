/**
 * One reading of the sensor (`DataPoint`, bmp280_x11_gui5.cpp:31-35) and the fixed
 * plausibility ranges the acquisition code checks it against.
 */
module Samples {
  import opened Numeric

  datatype DataPoint = DataPoint(temperature: Decimal, pressure: Decimal, timestamp: int)

  /**
   * The ranges are written into `process_line` and `load_data` as literals
   * (bmp280_x11_gui5.cpp:373, 380, 618); the configured `temp_range` and
   * `press_range` do not take part in the check.
   */
  predicate TempInRange(t: Decimal) {
    Between(t, -40, 85)
  }

  predicate PressInRange(p: Decimal) {
    Between(p, 300, 1100)
  }

  predicate InRange(p: DataPoint) {
    TempInRange(p.temperature) && PressInRange(p.pressure)
  }

  /** The ranges compare the values the readings denote. */
  lemma InRangeMeaning(p: DataPoint)
    ensures TempInRange(p.temperature) <==> -40.0 <= p.temperature.Value() <= 85.0
    ensures PressInRange(p.pressure) <==> 300.0 <= p.pressure.Value() <= 1100.0
  {
    BetweenMeaning(p.temperature, -40, 85);
    BetweenMeaning(p.pressure, 300, 1100);
  }

  /** The temperature or the pressure of a reading, as the `is_temp` flag selects. */
  function Field(p: DataPoint, isTemp: bool): real {
    if isTemp then p.temperature.Value() else p.pressure.Value()
  }

  /** Sum of one field over a run of readings. */
  function SumOf(s: seq<DataPoint>, isTemp: bool): real {
    if s == [] then 0.0 else SumOf(s[..|s| - 1], isTemp) + Field(s[|s| - 1], isTemp)
  }

  /** If every reading's field lies in [lo, hi], so does the mean of the run. */
  lemma {:induction false} SumBounds(s: seq<DataPoint>, isTemp: bool, lo: real, hi: real)
    requires forall k | 0 <= k < |s| :: lo <= Field(s[k], isTemp) <= hi
    ensures |s| as real * lo <= SumOf(s, isTemp) <= |s| as real * hi
  {
    if s != [] {
      var init, n := s[..|s| - 1], |s| as real;
      SumBounds(init, isTemp, lo, hi);
      var f := Field(s[|s| - 1], isTemp);
      assert SumOf(s, isTemp) == SumOf(init, isTemp) + f;
      assert n * lo == (n - 1.0) * lo + lo && n * hi == (n - 1.0) * hi + hi;
    }
  }
}
