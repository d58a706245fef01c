/**
 * The reading history, `CircularBuffer` (bmp280_x11_gui5.cpp:43-89): a ring of 300
 * slots with a `head` (the next slot to write) and a `size`, and two lazily filled
 * caches of smoothed values, one per field, in which 0.0 means "not computed yet".
 */
module History {
  import opened Wrappers
  import opened Numeric
  import opened Samples

  /** `MAX_POINTS`. */
  const MaxPoints: nat := 300

  function Min(a: int, b: int): int {
    if a <= b then a else b
  }

  function Max(a: int, b: int): int {
    if a <= b then b else a
  }

  /** The physical slot of logical entry `index` (0 is the oldest retained reading). */
  function Slot(head: nat, size: nat, index: nat): nat {
    (head + MaxPoints - size + index) % MaxPoints
  }

  /** What a ring of `MaxPoints` slots keeps of a run of readings: the newest ones. */
  function Retained(s: seq<DataPoint>): seq<DataPoint> {
    if |s| <= MaxPoints then s else s[|s| - MaxPoints..]
  }

  /** Keeping the newest entries step by step keeps the newest entries of the whole run. */
  lemma RetainedPush(s: seq<DataPoint>, p: DataPoint)
    ensures Retained(Retained(s) + [p]) == Retained(s + [p])
    ensures |Retained(s + [p])| == Min(|s| + 1, MaxPoints)
  {
    if |s| > MaxPoints {
      assert Retained(s) + [p] == (s + [p])[|s| - MaxPoints..];
    }
  }

  /** `window / 2` as C++ computes it on an `int`: truncated toward zero. */
  function HalfWindow(window: int): int {
    if window >= 0 then window / 2 else -((-window) / 2)
  }

  /**
   * The smoothed value of entry `index`: the mean of the field over the entries
   * within half a window of it, clipped at both ends of the history, or the entry's
   * own value when that range is empty (a negative window).
   */
  function Smoothed(s: seq<DataPoint>, isTemp: bool, index: nat, window: int): real
    requires index < |s|
  {
    var lo := WindowLow(index, window);
    var hi := WindowHigh(|s|, index, window);
    if lo <= hi then SumOf(s[lo..hi + 1], isTemp) / (hi - lo + 1) as real
    else Field(s[index], isTemp)
  }

  /** The first entry of the window around `index`, clipped at the oldest entry. */
  function WindowLow(index: nat, window: int): int {
    Max(0, index - HalfWindow(window))
  }

  /** The last entry of the window around `index`, clipped at the newest of `n` entries. */
  function WindowHigh(n: nat, index: nat, window: int): int {
    Min(n - 1, index + HalfWindow(window))
  }

  /** Smoothing never leaves the range the smoothed readings lie in. */
  lemma SmoothedWithin(s: seq<DataPoint>, isTemp: bool, index: nat, window: int, lo: real, hi: real)
    requires index < |s|
    requires forall k | 0 <= k < |s| :: lo <= Field(s[k], isTemp) <= hi
    ensures lo <= Smoothed(s, isTemp, index, window) <= hi
  {
    var a := WindowLow(index, window);
    var b := WindowHigh(|s|, index, window);
    if a <= b {
      var run := s[a..b + 1];
      assert forall k | 0 <= k < |run| :: run[k] == s[a + k];
      MeanWithin(run, isTemp, lo, hi);
    }
  }

  lemma MeanWithin(run: seq<DataPoint>, isTemp: bool, lo: real, hi: real)
    requires run != []
    requires forall k | 0 <= k < |run| :: lo <= Field(run[k], isTemp) <= hi
    ensures lo <= SumOf(run, isTemp) / |run| as real <= hi
  {
    SumBounds(run, isTemp, lo, hi);
    MeanOf(run, isTemp, lo, hi);
  }

  lemma MeanOf(run: seq<DataPoint>, isTemp: bool, lo: real, hi: real)
    requires run != []
    requires |run| as real * lo <= SumOf(run, isTemp) <= |run| as real * hi
    ensures lo <= SumOf(run, isTemp) / |run| as real <= hi
  {
    MeanBounds(SumOf(run, isTemp), |run| as real, lo, hi);
  }

  lemma MeanBounds(sum: real, n: real, lo: real, hi: real)
    requires n > 0.0 && n * lo <= sum <= n * hi
    ensures lo <= sum / n <= hi
  {
    var m := sum / n;
    assert sum == n * m;
    assert n * lo <= n * m <= n * hi;
  }

  /** A window of 0 or 1 covers the entry alone: smoothing returns its own value. */
  lemma SmoothedNarrow(s: seq<DataPoint>, isTemp: bool, index: nat, window: int)
    requires index < |s| && (window == 0 || window == 1 || window == -1)
    ensures Smoothed(s, isTemp, index, window) == Field(s[index], isTemp)
  {
    assert HalfWindow(window) == 0;
    assert WindowLow(index, window) == index == WindowHigh(|s|, index, window);
    var run := s[index..index + 1];
    assert run == [s[index]] && run[..0] == [];
    assert SumOf(run, isTemp) == Field(s[index], isTemp);
    assert SumOf(run, isTemp) / 1.0 == Field(s[index], isTemp);
  }

  /**
   * The cache invariant on plain values: every entry that is not 0.0 belongs to a
   * retained reading and is its smoothed value for the window recorded with it.
   */
  predicate CacheHolds(cache: seq<real>, windows: seq<int>, s: seq<DataPoint>, isTemp: bool) {
    |cache| == MaxPoints && |windows| == MaxPoints &&
    forall k | 0 <= k < MaxPoints && cache[k] != 0.0 ::
      k < |s| && cache[k] == Smoothed(s, isTemp, k, windows[k])
  }

  /** Storing a freshly smoothed value keeps the cache invariant. */
  lemma CacheStore(cache: seq<real>, windows: seq<int>, s: seq<DataPoint>, isTemp: bool, i: nat, window: int)
    requires CacheHolds(cache, windows, s, isTemp) && i < |s| && i < MaxPoints
    ensures CacheHolds(cache[i := Smoothed(s, isTemp, i, window)], windows[i := window], s, isTemp)
  {
  }

  /** An emptied cache holds nothing, so it satisfies the cache invariant. */
  lemma ZeroCacheHolds(cache: seq<real>, windows: seq<int>, s: seq<DataPoint>, isTemp: bool)
    requires |cache| == MaxPoints && |windows| == MaxPoints
    requires forall k | 0 <= k < |cache| :: cache[k] == 0.0
    ensures CacheHolds(cache, windows, s, isTemp)
  {
  }

  /** The newest `size` readings after a push are the retained ones before it, plus the new one. */
  lemma ContentsAfterPush(pushed: seq<DataPoint>, size: nat, p: DataPoint)
    requires size <= |pushed| && size <= MaxPoints
    ensures var newSize := Min(size + 1, MaxPoints);
      (pushed + [p])[|pushed| + 1 - newSize..] == Retained(pushed[|pushed| - size..] + [p])
  {
    var before := pushed[|pushed| - size..];
    RetainedPush(before, p);
    if size < MaxPoints {
      assert (pushed + [p])[|pushed| - size..] == before + [p];
    } else {
      assert (pushed + [p])[|pushed| + 1 - MaxPoints..] == (before + [p])[1..];
    }
  }

  /**
   * The ring invariant on plain values: `size` counts the readings pushed since the
   * last clear, up to 300, `head` follows them, and logical entry `i` sits in slot
   * `Slot(head, size, i)`.
   */
  ghost predicate RingHolds(ring: seq<DataPoint>, head: nat, size: nat, pushed: seq<DataPoint>, cleared: nat) {
    |ring| == MaxPoints &&
    cleared <= |pushed| &&
    size == Min(|pushed| - cleared, MaxPoints) &&
    head == (|pushed| - cleared) % MaxPoints &&
    forall i | 0 <= i < size :: ring[Slot(head, size, i)] == pushed[|pushed| - size + i]
  }

  /** Writing a reading at `head` and advancing keeps the ring invariant. */
  lemma RingPush(ring: seq<DataPoint>, head: nat, size: nat, pushed: seq<DataPoint>, cleared: nat, p: DataPoint)
    requires RingHolds(ring, head, size, pushed, cleared)
    ensures head < MaxPoints && size <= |pushed|
    ensures RingHolds(ring[head := p], (head + 1) % MaxPoints, Min(size + 1, MaxPoints), pushed + [p], cleared)
  {
    var newSize, newHead, ring' := Min(size + 1, MaxPoints), (head + 1) % MaxPoints, ring[head := p];
    forall i | 0 <= i < newSize
      ensures ring'[Slot(newHead, newSize, i)] == (pushed + [p])[|pushed| + 1 - newSize + i]
    {
      SlotAfterPush(head, size, i);
    }
  }

  class CircularBuffer {
    const buffer: array<DataPoint>
    var head: nat
    var size: nat
    const tempCache: array<real>
    const pressCache: array<real>

    /** Every reading ever pushed, oldest first. */
    ghost var Pushed: seq<DataPoint>
    /** How many of `Pushed` came before the last `clear`. */
    ghost var Cleared: nat
    /** The window each cache entry was computed with. */
    ghost var TempWindows: seq<int>
    ghost var PressWindows: seq<int>
    ghost const Repr: set<object>

    /** The retained readings, oldest first: `(*this)[0] .. (*this)[size - 1]`. */
    ghost function Contents(): seq<DataPoint>
      reads this
    {
      if size <= |Pushed| then Pushed[|Pushed| - size..] else []
    }

    /** A cache entry that is not 0.0 holds the smoothed value of a retained entry. */
    ghost predicate CacheValid(cache: array<real>, windows: seq<int>, isTemp: bool)
      reads this, cache
    {
      size <= |Pushed| && cache.Length == MaxPoints && CacheHolds(cache[..], windows, Contents(), isTemp)
    }

    ghost predicate Valid()
      reads this, Repr
    {
      Repr == {this, buffer, tempCache, pressCache} && tempCache != pressCache &&
      RingValid() &&
      CacheValid(tempCache, TempWindows, true) &&
      CacheValid(pressCache, PressWindows, false)
    }

    /**
     * The ring holds the newest readings pushed since the last `clear`, at most 300,
     * the oldest at `Slot(head, size, 0)`.
     */
    ghost predicate RingValid()
      reads this, buffer
    {
      buffer.Length == MaxPoints && RingHolds(buffer[..], head, size, Pushed, Cleared)
    }

    ghost predicate CachesEmpty()
      reads this, tempCache, pressCache
    {
      (forall k | 0 <= k < tempCache.Length :: tempCache[k] == 0.0) &&
      (forall k | 0 <= k < pressCache.Length :: pressCache[k] == 0.0)
    }

    constructor ()
      ensures Valid() && fresh(Repr)
      ensures Pushed == [] && size == 0 && head == 0 && CachesEmpty()
    {
      buffer := new DataPoint[MaxPoints];
      tempCache := new real[MaxPoints];
      pressCache := new real[MaxPoints];
      head, size := 0, 0;
      Pushed, Cleared := [], 0;
      TempWindows := seq(MaxPoints, _ => 0);
      PressWindows := seq(MaxPoints, _ => 0);
      Repr := {this, buffer, tempCache, pressCache};
      new;
      assert fresh(Repr) by {
        assert Repr == {this, buffer, tempCache, pressCache};
      }
      ZeroCaches();
      ZeroCacheHolds(tempCache[..], TempWindows, [], true);
      ZeroCacheHolds(pressCache[..], PressWindows, [], false);
    }

    /** The `std::fill` of both caches with 0.0. */
    method ZeroCaches()
      modifies tempCache, pressCache
      ensures CachesEmpty()
    {
      var k := 0;
      while k < tempCache.Length
        invariant 0 <= k <= tempCache.Length
        invariant forall j | 0 <= j < k :: tempCache[j] == 0.0
      {
        tempCache[k] := 0.0;
        k := k + 1;
      }
      k := 0;
      while k < pressCache.Length
        invariant 0 <= k <= pressCache.Length
        invariant forall j | 0 <= j < k :: pressCache[j] == 0.0
        invariant forall j | 0 <= j < tempCache.Length :: tempCache[j] == 0.0
      {
        pressCache[k] := 0.0;
        k := k + 1;
      }
    }

    /**
     * `push`: the reading goes into the slot at `head`, overwriting the oldest one
     * once the ring is full; `size` stops growing at 300 and both caches are emptied.
     */
    method Push(p: DataPoint)
      requires Valid()
      modifies Repr
      ensures Valid()
      ensures Pushed == old(Pushed) + [p] && Cleared == old(Cleared)
      ensures Contents() == Retained(old(Contents()) + [p])
      ensures size == if old(size) < MaxPoints then old(size) + 1 else MaxPoints
      ensures head == (old(head) + 1) % MaxPoints
      ensures CachesEmpty()
    {
      Record(p);
      ZeroCaches();
      ZeroCacheHolds(tempCache[..], TempWindows, Contents(), true);
      ZeroCacheHolds(pressCache[..], PressWindows, Contents(), false);
    }

    /** The ring half of `push`: the write at `head` and the new `head` and `size`. */
    method Record(p: DataPoint)
      requires RingValid()
      modifies this, buffer
      ensures RingValid()
      ensures Pushed == old(Pushed) + [p] && Cleared == old(Cleared)
      ensures TempWindows == old(TempWindows) && PressWindows == old(PressWindows)
      ensures Contents() == Retained(old(Contents()) + [p])
      ensures size == if old(size) < MaxPoints then old(size) + 1 else MaxPoints
      ensures head == (old(head) + 1) % MaxPoints
    {
      ghost var oldPushed, oldSize, oldContents := Pushed, size, Contents();
      ghost var ring, newHead, newSize := buffer[..][head := p], (head + 1) % MaxPoints, Min(size + 1, MaxPoints);
      RingPush(buffer[..], head, size, Pushed, Cleared, p);
      assert oldContents == oldPushed[|oldPushed| - oldSize..];
      buffer[head] := p;
      assert buffer[..] == ring;
      head := (head + 1) % MaxPoints;
      if size < MaxPoints {
        size := size + 1;
      }
      Pushed := Pushed + [p];
      assert head == newHead && size == newSize && buffer[..] == ring;
      assert RingHolds(buffer[..], head, size, Pushed, Cleared);
      ContentsAfterPush(oldPushed, oldSize, p);
      assert Contents() == Pushed[|Pushed| - size..];
    }

    /** `clear`: the ring is emptied and both caches with it. */
    method Clear()
      requires Valid()
      modifies Repr
      ensures Valid()
      ensures Pushed == old(Pushed) && Cleared == |Pushed|
      ensures size == 0 && head == 0 && Contents() == []
      ensures CachesEmpty()
    {
      head, size := 0, 0;
      Cleared := |Pushed|;
      ZeroCaches();
    }

    /** `get_size`. */
    function Size(): (n: nat)
      reads this, Repr
      requires Valid()
      ensures n == |Contents()| && n <= MaxPoints
    {
      size
    }

    /**
     * `operator[]`: nothing (the C++ throws) when the ring is empty; otherwise the
     * reading in the slot the index maps to, which for `index < size` is the
     * `index`-th oldest retained reading.
     */
    function At(index: nat): (r: Option<DataPoint>)
      reads this, Repr
      requires Valid()
      ensures r.None? <==> size == 0
      ensures r.Some? ==> r.value == buffer[Slot(head, size, index)]
      ensures index < size ==> r == Some(Contents()[index]) && r == Some(Pushed[|Pushed| - size + index])
    {
      if size == 0 then None else Some(buffer[(head + MaxPoints - size + index) % MaxPoints])
    }

    /**
     * `smooth_value`: 0 on an empty ring; otherwise, for the index clamped to the
     * newest entry, the cached value when there is one, else the smoothed value,
     * which is then cached.
     */
    method SmoothValue(isTemp: bool, index: nat, window: int) returns (v: real)
      requires Valid()
      modifies this, tempCache, pressCache
      ensures Valid()
      ensures Pushed == old(Pushed) && Cleared == old(Cleared) && size == old(size) && head == old(head)
      ensures unchanged(buffer)
      ensures size == 0 ==> v == 0.0
      ensures size > 0 ==>
        var i := Min(index, size - 1);
        var cached := if isTemp then old(tempCache[i]) else old(pressCache[i]);
        v == if cached != 0.0 then cached else Smoothed(Contents(), isTemp, i, window)
      ensures size > 0 ==>
        var i := Min(index, size - 1);
        v == Smoothed(Contents(), isTemp, i, if isTemp then TempWindows[i] else PressWindows[i])
      ensures size == 0 ==> unchanged(tempCache) && unchanged(pressCache)
      ensures size > 0 && isTemp ==>
        tempCache[..] == old(tempCache[..])[Min(index, size - 1) := v] && unchanged(pressCache)
      ensures size > 0 && !isTemp ==>
        pressCache[..] == old(pressCache[..])[Min(index, size - 1) := v] && unchanged(tempCache)
    {
      if size == 0 {
        return 0.0;
      }
      var i := Min(index, size - 1);
      if isTemp {
        v := LookupTemp(i, window);
      } else {
        v := LookupPress(i, window);
      }
    }

    /**
     * Between two pushes or clears, `smooth_value` returns a non-zero value it
     * returned before unchanged, whatever window the later call asks for.
     */
    method SmoothAgain(isTemp: bool, index: nat, window: int, window': int) returns (first: real, second: real)
      requires Valid()
      modifies this, tempCache, pressCache
      ensures Valid() && Contents() == old(Contents())
      ensures first != 0.0 ==> second == first
    {
      first := SmoothValue(isTemp, index, window);
      if size > 0 {
        var i := Min(index, size - 1);
        assert (if isTemp then tempCache[..] else pressCache[..])[i] == first;
      }
      second := SmoothValue(isTemp, index, window');
    }

    /** The temperature half of `smooth_value` for an index within the ring. */
    method LookupTemp(i: nat, window: int) returns (v: real)
      requires Valid() && i < size
      modifies this, tempCache
      ensures Valid()
      ensures Pushed == old(Pushed) && Cleared == old(Cleared) && size == old(size) && head == old(head)
      ensures v == if old(tempCache[i]) != 0.0 then old(tempCache[i]) else Smoothed(Contents(), true, i, window)
      ensures v == Smoothed(Contents(), true, i, TempWindows[i])
      ensures tempCache[..] == old(tempCache[..])[i := v] && unchanged(pressCache)
      ensures PressWindows == old(PressWindows)
    {
      ghost var c := Contents();
      if tempCache[i] == 0.0 {
        var value := Average(true, i, window);
        StoreTemp(i, value, window);
        assert Contents() == c && tempCache[i] == value;
        v := tempCache[i];
        assert v == Smoothed(c, true, i, window);
      } else {
        v := tempCache[i];
        assert v == old(tempCache[i]);
        assert tempCache[..] == old(tempCache[..])[i := v];
      }
    }

    /** The pressure half of `smooth_value` for an index within the ring. */
    method LookupPress(i: nat, window: int) returns (v: real)
      requires Valid() && i < size
      modifies this, pressCache
      ensures Valid()
      ensures Pushed == old(Pushed) && Cleared == old(Cleared) && size == old(size) && head == old(head)
      ensures v == if old(pressCache[i]) != 0.0 then old(pressCache[i]) else Smoothed(Contents(), false, i, window)
      ensures v == Smoothed(Contents(), false, i, PressWindows[i])
      ensures pressCache[..] == old(pressCache[..])[i := v] && unchanged(tempCache)
      ensures TempWindows == old(TempWindows)
    {
      ghost var c := Contents();
      if pressCache[i] == 0.0 {
        var value := Average(false, i, window);
        StorePress(i, value, window);
        assert Contents() == c && pressCache[i] == value;
        v := pressCache[i];
        assert v == Smoothed(c, false, i, window);
      } else {
        v := pressCache[i];
        assert v == old(pressCache[i]);
        assert pressCache[..] == old(pressCache[..])[i := v];
      }
    }

    /** `cache[index] = ...` on the temperature cache, recording the window used. */
    method StoreTemp(i: nat, value: real, ghost window: int)
      requires Valid() && i < size && value == Smoothed(Contents(), true, i, window)
      modifies this, tempCache
      ensures Valid()
      ensures Pushed == old(Pushed) && Cleared == old(Cleared) && size == old(size) && head == old(head)
      ensures tempCache[..] == old(tempCache[..])[i := value] && TempWindows == old(TempWindows)[i := window]
      ensures PressWindows == old(PressWindows)
    {
      ghost var c := Contents();
      CacheStore(tempCache[..], TempWindows, c, true, i, window);
      tempCache[i] := value;
      TempWindows := TempWindows[i := window];
      assert tempCache[..] == old(tempCache[..])[i := value];
      assert Contents() == c;
    }

    /** `cache[index] = ...` on the pressure cache, recording the window used. */
    method StorePress(i: nat, value: real, ghost window: int)
      requires Valid() && i < size && value == Smoothed(Contents(), false, i, window)
      modifies this, pressCache
      ensures Valid()
      ensures Pushed == old(Pushed) && Cleared == old(Cleared) && size == old(size) && head == old(head)
      ensures pressCache[..] == old(pressCache[..])[i := value] && PressWindows == old(PressWindows)[i := window]
      ensures TempWindows == old(TempWindows)
    {
      ghost var c := Contents();
      CacheStore(pressCache[..], PressWindows, c, false, i, window);
      pressCache[i] := value;
      PressWindows := PressWindows[i := window];
      assert pressCache[..] == old(pressCache[..])[i := value];
      assert Contents() == c;
    }

    /** `smooth_value` without its cache, for an index within the ring. */
    method Average(isTemp: bool, i: nat, window: int) returns (value: real)
      requires Valid() && i < size
      ensures value == Smoothed(Contents(), isTemp, i, window)
    {
      ghost var c := Contents();
      var lo := WindowLow(i, window);
      var hi := WindowHigh(size, i, window);
      assert |c| == size;
      if lo <= hi {
        var sum := SumRange(isTemp, lo, hi);
        value := sum / (hi - lo + 1) as real;
      } else {
        EntryAt(i);
        value := Field(buffer[Slot(head, size, i)], isTemp);
      }
    }

    /** The summing loop of `smooth_value`: the field summed over entries lo..hi. */
    method SumRange(isTemp: bool, lo: nat, hi: nat) returns (sum: real)
      requires Valid() && lo <= hi < size
      ensures sum == SumOf(Contents()[lo..hi + 1], isTemp)
    {
      ghost var c := Contents();
      sum := 0.0;
      var j := lo;
      EntryAt(lo);
      while j <= hi
        invariant lo <= j <= hi + 1
        invariant sum == SumOf(c[lo..j], isTemp)
      {
        EntryAt(j);
        SumExtend(c, isTemp, lo, j);
        sum := sum + Field(buffer[Slot(head, size, j)], isTemp);
        j := j + 1;
      }
    }

    /**
     * The ring holds the newest `min(n, 300)` of the n readings pushed since the
     * last `clear`, oldest first.
     */
    lemma ContentsAreNewest()
      requires Valid()
      ensures Contents() == Retained(Pushed[Cleared..])
      ensures size == Min(|Pushed| - Cleared, MaxPoints)
    {
    }

    /** The slot of a logical index holds that retained reading. */
    lemma EntryAt(j: nat)
      requires Valid() && j < size
      ensures |Contents()| == size && buffer[Slot(head, size, j)] == Contents()[j]
    {
    }
  }

  /** Summing one more entry of a range adds its field. */
  lemma SumExtend(s: seq<DataPoint>, isTemp: bool, lo: nat, j: nat)
    requires lo <= j < |s|
    ensures SumOf(s[lo..j + 1], isTemp) == SumOf(s[lo..j], isTemp) + Field(s[j], isTemp)
  {
    assert s[lo..j + 1][..j - lo] == s[lo..j];
  }

  /** How a logical index moves when a reading is pushed. */
  lemma SlotAfterPush(head: nat, size: nat, i: nat)
    requires head < MaxPoints && size <= MaxPoints
    requires i < Min(size + 1, MaxPoints)
    ensures var newSize := Min(size + 1, MaxPoints);
      Slot((head + 1) % MaxPoints, newSize, i) ==
        if i == newSize - 1 then head else Slot(head, size, i + size + 1 - newSize)
    ensures var newSize := Min(size + 1, MaxPoints);
      i < newSize - 1 ==> Slot(head, size, i + size + 1 - newSize) != head
  {
  }
}
