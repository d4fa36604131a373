/**
 * The light sampler: a current window of readings that fills one sample at a
 * time, a published history that the once-per-second swap replaces with the
 * closed window, a two-threshold dip detector that runs against an
 * exponentially smoothed light level, and the one-second swap scheduler.
 */
module Sampler {
  import opened CArith

  /** Capacity of each of the two sample buffers. */
  const NUM_SAMPLES: nat := 1000
  const A2D_VOLTAGE_REF_V: real := 1.8
  const A2D_MAX_READING: int := 4095
  /** Weight of the previous average in the exponential smoothing. */
  const SMOOTHING_PREV_WEIGHT: real := 0.999
  /** A dip starts when a reading falls this far below the average ... */
  const DIP_THRESHOLD: real := 0.1
  /** ... and the detector re-arms once a reading is back within this distance. */
  const DIP_HYSTERESIS_THRESHOLD: real := 0.07
  /** The swap loop publishes the window once this many milliseconds have passed. */
  const SWAP_PERIOD_MS: int := 1000
  /** The terminal line shows at most this many history samples. */
  const TERMINAL_POINTS: nat := 10

  /** Scales a raw A2D count to volts. */
  function A2dToVoltage(raw: int): (v: real)
    ensures 0 <= raw <= A2D_MAX_READING ==> 0.0 <= v <= A2D_VOLTAGE_REF_V
    ensures raw == 0 ==> v == 0.0
    ensures raw == A2D_MAX_READING ==> v == A2D_VOLTAGE_REF_V
  {
    (raw as real / A2D_MAX_READING as real) * A2D_VOLTAGE_REF_V
  }

  lemma A2dToVoltageMonotone(a: int, b: int)
    requires a <= b
    ensures A2dToVoltage(a) <= A2dToVoltage(b)
  {
    var m := A2D_MAX_READING as real;
    assert a as real / m <= b as real / m;
  }

  /** The exponential moving average after one more reading. */
  function Ema(avg: real, reading: real): real
  {
    SMOOTHING_PREV_WEIGHT * avg + (1.0 - SMOOTHING_PREV_WEIGHT) * reading
  }

  /**
   * The new average lies between the old one and the reading, and only
   * reaches the reading when the old average already equalled it.
   */
  lemma EmaBetween(avg: real, reading: real)
    ensures avg <= reading ==> avg <= Ema(avg, reading) <= reading
    ensures reading <= avg ==> reading <= Ema(avg, reading) <= avg
    ensures avg != reading ==> Ema(avg, reading) != reading
  {
  }

  // ---------------------------------------------------------------------------
  // Dip detection

  /** The hysteresis machine that counts dips within one window. */
  datatype DipState = DipState(dipAllowed: bool, numDips: nat)

  /** The detector at the start of every window: armed, nothing counted. */
  const ARMED: DipState := DipState(true, 0)

  function Bit(b: bool): nat
  {
    if b then 1 else 0
  }

  /** One reading against the average as it stood before this reading. */
  function DipStep(s: DipState, reading: real, avg: real): (r: DipState)
    ensures r.numDips == s.numDips + 1 <==> s.dipAllowed && reading <= avg - DIP_THRESHOLD
    ensures r.numDips == s.numDips || r.numDips == s.numDips + 1
    ensures r.numDips != s.numDips ==> !r.dipAllowed
    ensures !s.dipAllowed ==> r.numDips == s.numDips
    ensures !s.dipAllowed ==> (r.dipAllowed <==> reading >= avg - DIP_HYSTERESIS_THRESHOLD)
    ensures s.dipAllowed ==> (r.dipAllowed <==> r.numDips == s.numDips)
  {
    if s.dipAllowed then
      if reading <= avg - DIP_THRESHOLD then DipState(false, s.numDips + 1) else s
    else
      if reading >= avg - DIP_HYSTERESIS_THRESHOLD then DipState(true, s.numDips) else s
  }

  /**
   * The detector after a run of readings, `avgs[i]` being the average that
   * reading `readings[i]` is compared with.
   */
  function Run(s: DipState, readings: seq<real>, avgs: seq<real>): (r: DipState)
    requires |readings| == |avgs|
    ensures s.numDips <= r.numDips <= s.numDips + |readings|
    decreases |readings|
  {
    if |readings| == 0 then s
    else
      var n := |readings| - 1;
      DipStep(Run(s, readings[..n], avgs[..n]), readings[n], avgs[n])
  }

  lemma RunAppend(s: DipState, readings: seq<real>, avgs: seq<real>, reading: real, avg: real)
    requires |readings| == |avgs|
    ensures Run(s, readings + [reading], avgs + [avg]) == DipStep(Run(s, readings, avgs), reading, avg)
  {
    assert (readings + [reading])[..|readings|] == readings;
    assert (avgs + [avg])[..|avgs|] == avgs;
  }

  /**
   * Every counted dip disarms the detector and only a tick that counts
   * nothing re-arms it, so dips are at least two ticks apart.
   */
  lemma {:induction false} DipCountBound(s: DipState, readings: seq<real>, avgs: seq<real>)
    requires |readings| == |avgs|
    ensures var r := Run(s, readings, avgs);
      2 * (r.numDips - s.numDips) + Bit(r.dipAllowed) <= |readings| + Bit(s.dipAllowed)
  {
    if |readings| > 0 {
      var n := |readings| - 1;
      DipCountBound(s, readings[..n], avgs[..n]);
    }
  }

  /**
   * Edge triggering: a reading at or below the dip threshold followed by any
   * number of readings that stay under the re-arm threshold counts one dip.
   */
  lemma {:induction false} SustainedDipCountsOnce(s: DipState, readings: seq<real>, avgs: seq<real>)
    requires |readings| == |avgs| >= 1
    requires s.dipAllowed && readings[0] <= avgs[0] - DIP_THRESHOLD
    requires forall i :: 1 <= i < |readings| ==> readings[i] < avgs[i] - DIP_HYSTERESIS_THRESHOLD
    ensures Run(s, readings, avgs) == DipState(false, s.numDips + 1)
  {
    var n := |readings| - 1;
    if n == 0 {
      assert Run(s, readings[..0], avgs[..0]) == s;
    } else {
      SustainedDipCountsOnce(s, readings[..n], avgs[..n]);
    }
  }

  /** Readings that never reach the dip threshold leave an armed detector as it was. */
  lemma {:induction false} QuietRunCountsNothing(s: DipState, readings: seq<real>, avgs: seq<real>)
    requires |readings| == |avgs|
    requires s.dipAllowed
    requires forall i :: 0 <= i < |readings| ==> readings[i] > avgs[i] - DIP_THRESHOLD
    ensures Run(s, readings, avgs) == s
  {
    if |readings| > 0 {
      var n := |readings| - 1;
      QuietRunCountsNothing(s, readings[..n], avgs[..n]);
    }
  }

  // ---------------------------------------------------------------------------
  // Terminal output: which history samples the once-per-second line shows

  datatype Point = Point(labelIndex: int, value: real)

  function PointCount(historySize: nat): (n: nat)
    ensures n <= TERMINAL_POINTS && n <= historySize
    ensures historySize >= TERMINAL_POINTS ==> n == TERMINAL_POINTS
    ensures historySize < TERMINAL_POINTS ==> n == historySize
  {
    if historySize < TERMINAL_POINTS then historySize else TERMINAL_POINTS
  }

  /** The spacing between printed labels; 1 for a short history. */
  function LabelScale(historySize: nat): (k: int)
    ensures k >= 0
    ensures historySize < TERMINAL_POINTS ==> k == 1
    ensures historySize >= TERMINAL_POINTS ==> k * TERMINAL_POINTS <= historySize - 1 < (k + 1) * TERMINAL_POINTS
  {
    var scalingFactor := CDiv(historySize - 1, TERMINAL_POINTS);
    if historySize < TERMINAL_POINTS then 1 else scalingFactor
  }

  /** Every printed label is an index of the published window, in non-decreasing order. */
  lemma LabelsInRange(historySize: nat, i: nat, j: nat)
    requires i <= j < PointCount(historySize)
    ensures 0 <= i * LabelScale(historySize) <= j * LabelScale(historySize) < historySize
  {
    var k := LabelScale(historySize);
    if historySize >= TERMINAL_POINTS {
      assert i * k <= j * k by {
        assert (j - i) * k >= 0;
      }
      assert j * k <= TERMINAL_POINTS * k;
    }
  }

  /**
   * A window of 1000 samples: the second point is labelled 99. That it shows
   * sample 1 is stated by `OutputPointsAsWritten`.
   */
  lemma TerminalLabelMismatch()
    ensures 1 < PointCount(NUM_SAMPLES)
    ensures 1 * LabelScale(NUM_SAMPLES) == 99
  {
    assert CDiv(NUM_SAMPLES - 1, TERMINAL_POINTS) == 99;
  }

  /** A consistent copy of the published history: its data and its length. */
  datatype Snapshot = Snapshot(data: seq<real>, size: nat)

  // ---------------------------------------------------------------------------
  // The sampler's state

  class LightSampler {
    var currentBuffer: array<real>
    var historyBuffer: array<real>
    var isInitialized: bool
    var numSamplesTaken: nat
    var historySize: nat
    var currentSize: nat
    var historyDips: nat
    var avgLightReading: real
    var numDips: nat
    var dipAllowed: bool
    /** When the swap loop last published the window (ms). */
    var swapStartTime: int
    /** The average each reading of the open window was compared with. */
    ghost var windowAvgs: seq<real>
    /** The same for the published window. */
    ghost var historyAvgs: seq<real>

    ghost predicate Valid()
      reads this, currentBuffer, historyBuffer
    {
      && currentBuffer != historyBuffer
      && currentBuffer.Length == NUM_SAMPLES
      && historyBuffer.Length == NUM_SAMPLES
      && numDips <= currentSize <= NUM_SAMPLES
      && historyDips <= historySize <= NUM_SAMPLES
      && |windowAvgs| == currentSize
      && |historyAvgs| == historySize
      && DipState(dipAllowed, numDips) == Run(ARMED, currentBuffer[..currentSize], windowAvgs)
      && historyDips == Run(ARMED, historyBuffer[..historySize], historyAvgs).numDips
    }

    /** The readings of the window that is still open. */
    ghost function Window(): seq<real>
      reads this, currentBuffer
      requires currentSize <= currentBuffer.Length
    {
      currentBuffer[..currentSize]
    }

    /** The readings of the last closed window. */
    ghost function History(): seq<real>
      reads this, historyBuffer
      requires historySize <= historyBuffer.Length
    {
      historyBuffer[..historySize]
    }

    /** The module's state before initialisation, as its static initialisers set it. */
    constructor ()
      ensures Valid() && fresh(currentBuffer) && fresh(historyBuffer)
      ensures !isInitialized && numSamplesTaken == 0 && avgLightReading == 0.0
      ensures currentSize == 0 && numDips == 0 && dipAllowed
      ensures historySize == 0 && historyDips == 0
      ensures forall i :: 0 <= i < NUM_SAMPLES ==> currentBuffer[i] == 0.0 && historyBuffer[i] == 0.0
    {
      currentBuffer := new real[NUM_SAMPLES](_ => 0.0);
      historyBuffer := new real[NUM_SAMPLES](_ => 0.0);
      isInitialized := false;
      numSamplesTaken := 0;
      historySize := 0;
      currentSize := 0;
      historyDips := 0;
      avgLightReading := 0.0;
      numDips := 0;
      dipAllowed := true;
      swapStartTime := 0;
      windowAvgs := [];
      historyAvgs := [];
    }

    /**
     * Seeds the average with one reading and starts the swap clock at `now`
     * (the moment the swap loop starts).
     */
    method Init(initialRaw: int, now: int)
      requires Valid() && !isInitialized
      modifies this`isInitialized, this`avgLightReading, this`swapStartTime
      ensures Valid() && isInitialized
      ensures avgLightReading == A2dToVoltage(initialRaw)
      ensures swapStartTime == now
    {
      isInitialized := true;
      avgLightReading := A2dToVoltage(initialRaw);
      swapStartTime := now;
    }

    method Cleanup()
      requires isInitialized
      modifies this`isInitialized
      ensures !isInitialized
    {
      isInitialized := false;
    }

    /**
     * Publishes the open window: the whole current buffer is copied, the
     * window's size and dip count become the history's, and the window and
     * the detector start over. The sample count and the average carry on.
     */
    method MoveCurrentDataToHistory()
      requires Valid() && isInitialized
      modifies historyBuffer, this`historySize, this`historyDips, this`currentSize, this`numDips,
        this`dipAllowed, this`windowAvgs, this`historyAvgs
      ensures Valid()
      ensures historyBuffer[..] == currentBuffer[..]
      ensures History() == old(Window())
      ensures historySize == old(currentSize) && historyDips == old(numDips)
      ensures historyAvgs == old(windowAvgs)
      ensures currentSize == 0 && numDips == 0 && dipAllowed
      ensures numSamplesTaken == old(numSamplesTaken) && avgLightReading == old(avgLightReading)
      ensures unchanged(currentBuffer)
    {
      ghost var window := currentBuffer[..currentSize];
      assert DipState(dipAllowed, numDips) == Run(ARMED, window, windowAvgs);
      forall i | 0 <= i < NUM_SAMPLES {
        historyBuffer[i] := currentBuffer[i];
      }
      assert historyBuffer[..currentSize] == window;
      historySize := currentSize;
      historyDips := numDips;
      historyAvgs := windowAvgs;
      currentSize := 0;
      numDips := 0;
      dipAllowed := true;
      windowAvgs := [];
    }

    /** Stores one reading at the end of the open window and counts it. */
    method StoreSample(v: real)
      requires currentSize < currentBuffer.Length
      modifies currentBuffer, this`currentSize, this`numSamplesTaken
      ensures currentBuffer[old(currentSize)] == v
      ensures forall i :: 0 <= i < currentBuffer.Length && i != old(currentSize) ==> currentBuffer[i] == old(currentBuffer[i])
      ensures currentSize == old(currentSize) + 1
      ensures Window() == old(Window()) + [v]
      ensures numSamplesTaken == old(numSamplesTaken) + 1
    {
      ghost var window := currentBuffer[..currentSize];
      currentBuffer[currentSize] := v;
      numSamplesTaken := numSamplesTaken + 1;
      currentSize := currentSize + 1;
      assert currentBuffer[..currentSize] == window + [v];
    }

    /** Runs the dip detector on one reading, then folds it into the average. */
    method Observe(v: real)
      modifies this`numDips, this`dipAllowed, this`avgLightReading, this`windowAvgs
      ensures DipState(dipAllowed, numDips) == DipStep(old(DipState(dipAllowed, numDips)), v, old(avgLightReading))
      ensures windowAvgs == old(windowAvgs) + [old(avgLightReading)]
      ensures avgLightReading == Ema(old(avgLightReading), v)
    {
      var detector := DipStep(DipState(dipAllowed, numDips), v, avgLightReading);
      dipAllowed := detector.dipAllowed;
      numDips := detector.numDips;
      windowAvgs := windowAvgs + [avgLightReading];
      avgLightReading := Ema(avgLightReading, v);
    }

    /**
     * One pass of the sampling loop with the sensor's raw count `raw`. The
     * buffer write is unchecked in the source, hence the precondition. The
     * two counters are bumped together with the store, ahead of the dip
     * test; neither is read by the test or by the average.
     */
    method SampleTick(raw: int)
      requires Valid() && currentSize < NUM_SAMPLES
      modifies currentBuffer, this`currentSize, this`numDips, this`dipAllowed, this`numSamplesTaken,
        this`avgLightReading, this`windowAvgs
      ensures Valid()
      ensures currentBuffer[old(currentSize)] == A2dToVoltage(raw)
      ensures forall i :: 0 <= i < NUM_SAMPLES && i != old(currentSize) ==> currentBuffer[i] == old(currentBuffer[i])
      ensures Window() == old(Window()) + [A2dToVoltage(raw)]
      ensures currentSize == old(currentSize) + 1
      ensures numSamplesTaken == old(numSamplesTaken) + 1
      ensures DipState(dipAllowed, numDips)
           == DipStep(old(DipState(dipAllowed, numDips)), A2dToVoltage(raw), old(avgLightReading))
      ensures windowAvgs == old(windowAvgs) + [old(avgLightReading)]
      ensures avgLightReading == Ema(old(avgLightReading), A2dToVoltage(raw))
    {
      var voltageReading := A2dToVoltage(raw);
      RunAppend(ARMED, Window(), windowAvgs, voltageReading, avgLightReading);
      StoreSample(voltageReading);
      Observe(voltageReading);
    }

    /** One pass of the swap loop at time `now` (ms). */
    method SwapPoll(now: int) returns (swapped: bool)
      requires Valid() && isInitialized
      modifies historyBuffer, this`historySize, this`historyDips, this`currentSize, this`numDips,
        this`dipAllowed, this`windowAvgs, this`historyAvgs, this`swapStartTime
      ensures Valid()
      ensures swapped <==> now - old(swapStartTime) >= SWAP_PERIOD_MS
      ensures swapped ==> && historyBuffer[..] == old(currentBuffer[..])
                          && History() == old(Window())
                          && historySize == old(currentSize) && historyDips == old(numDips)
                          && historyAvgs == old(windowAvgs)
                          && currentSize == 0 && numDips == 0 && dipAllowed
                          && swapStartTime == now
      ensures !swapped ==> unchanged(this) && unchanged(historyBuffer)
      ensures numSamplesTaken == old(numSamplesTaken) && unchanged(currentBuffer)
    {
      swapped := now - swapStartTime >= SWAP_PERIOD_MS;
      if swapped {
        MoveCurrentDataToHistory();
        swapStartTime := now;
      }
    }

    function GetHistorySize(): (n: nat)
      reads this, currentBuffer, historyBuffer
      requires Valid() && isInitialized
      ensures n == |History()| && n <= NUM_SAMPLES
    {
      historySize
    }

    function GetHistoryNumDips(): (n: nat)
      reads this, currentBuffer, historyBuffer
      requires Valid()
      ensures n == Run(ARMED, History(), historyAvgs).numDips
      ensures 2 * n <= |History()| + 1
    {
      DipCountBound(ARMED, History(), historyAvgs);
      historyDips
    }

    /** The total number of samples taken; no swap resets it. */
    function GetNumSamplesTaken(): (n: nat)
      reads this
      requires isInitialized
      ensures n == numSamplesTaken
    {
      numSamplesTaken
    }

    /** As written the source returns a constant instead of the average it keeps. */
    function GetAverageReading(): (r: real)
      reads this
      requires isInitialized
      ensures r == 0.0
    {
      0.0
    }

    /** The average light level as the header documents the getter: the smoothed level itself. */
    function GetAverageLightLevel(): (r: real)
      reads this
      requires isInitialized
      ensures r == avgLightReading
    {
      avgLightReading
    }

    /**
     * The history getter as written: the caller's `size` is read as the
     * number of elements to copy, and is never set to the history's size.
     */
    function GetHistoryAsWritten(size: int): (copy: seq<real>)
      reads this, historyBuffer
      requires isInitialized && historyBuffer.Length == NUM_SAMPLES
      requires 0 <= size <= NUM_SAMPLES
      ensures |copy| == size
      ensures forall i :: 0 <= i < size ==> copy[i] == historyBuffer[i]
    {
      historyBuffer[..size]
    }

    /** The history getter as documented: data and size of the same window. */
    function GetHistory(): (r: Snapshot)
      reads this, currentBuffer, historyBuffer
      requires Valid() && isInitialized
      ensures r.size == historySize && |r.data| == r.size
      ensures r.data == History()
    {
      Snapshot(historyBuffer[..historySize], historySize)
    }

    /**
     * The terminal line as written: labels are spread across the window but
     * the values are the first samples of it.
     */
    method OutputPointsAsWritten() returns (points: seq<Point>)
      requires Valid()
      ensures |points| == PointCount(historySize)
      ensures forall i :: 0 <= i < |points| ==>
                points[i].labelIndex == i * LabelScale(historySize) && points[i].value == History()[i]
    {
      var numSamples := TERMINAL_POINTS;
      var scalingFactor := CDiv(historySize - 1, TERMINAL_POINTS);
      if historySize < numSamples {
        numSamples := historySize;
        scalingFactor := 1;
      }
      points := [];
      for i := 0 to numSamples
        invariant |points| == i
        invariant forall k :: 0 <= k < i ==>
                    points[k].labelIndex == k * LabelScale(historySize) && points[k].value == History()[k]
      {
        points := points + [Point(i * scalingFactor, historyBuffer[i])];
      }
    }

    /** The terminal line with each label showing its own sample. */
    method OutputPoints() returns (points: seq<Point>)
      requires Valid()
      ensures |points| == PointCount(historySize)
      ensures forall i :: 0 <= i < |points| ==>
                && points[i].labelIndex == i * LabelScale(historySize)
                && 0 <= points[i].labelIndex < historySize
                && points[i].value == History()[points[i].labelIndex]
    {
      var numSamples := TERMINAL_POINTS;
      var scalingFactor := CDiv(historySize - 1, TERMINAL_POINTS);
      if historySize < numSamples {
        numSamples := historySize;
        scalingFactor := 1;
      }
      points := [];
      for i := 0 to numSamples
        invariant |points| == i
        invariant forall k :: 0 <= k < i ==>
                    && points[k].labelIndex == k * LabelScale(historySize)
                    && 0 <= points[k].labelIndex < historySize
                    && points[k].value == History()[points[k].labelIndex]
      {
        LabelsInRange(historySize, i, i);
        points := points + [Point(i * scalingFactor, historyBuffer[i * scalingFactor])];
      }
    }
  }

  /** A caller passing any size but the history's gets data of the wrong length. */
  lemma GetHistoryIgnoresHistorySize(s: LightSampler, size: int)
    requires s.Valid() && s.isInitialized
    requires 0 <= size <= NUM_SAMPLES && size != s.historySize
    ensures |s.GetHistoryAsWritten(size)| != s.GetHistory().size
  {
  }

  /**
   * As written, the average getter disagrees with the level it documents
   * whenever that level is not zero, for example right after seeding it
   * with a full-scale reading of 1.8 V.
   */
  lemma AverageReadingIgnoresAverage(s: LightSampler)
    requires s.isInitialized && s.avgLightReading != 0.0
    ensures s.GetAverageReading() != s.GetAverageLightLevel()
  {
  }

  /** The two getters agree on every size up to the history's. */
  lemma GetHistoryAsWrittenIsPrefix(s: LightSampler, size: int)
    requires s.Valid() && s.isInitialized
    requires 0 <= size <= s.historySize
    ensures s.GetHistoryAsWritten(size) == s.GetHistory().data[..size]
  {
  }
}
