/**
 * The potentiometer-driven LED: every 100 ms the PWM loop reads the
 * potentiometer and, when the reading changed, derives a blink frequency
 * from it and rewrites the PWM period, duty cycle and enable files.
 */
module PotLed {
  import opened CArith

  const FREQUENCY_DIV_FACTOR: int := 40
  const NANOSECONDS_IN_A_SECOND: int := 1000000000
  /** The loop looks at the potentiometer once this many milliseconds have passed. */
  const POLL_PERIOD_MS: int := 100

  /** The three PWM control files the loop writes. */
  datatype PwmFile = PeriodFile | DutyCycleFile | EnableFile

  /** One integer written to one PWM file. */
  datatype Write = Write(file: PwmFile, value: int)

  /** What one pass of the PWM loop reads and updates. */
  datatype PwmState = PwmState(potReading: int, currentFreq: int, ledOn: bool, startTime: int)

  datatype StepResult = StepResult(state: PwmState, writes: seq<Write>)

  /**
   * The loop's state when its thread starts at `now`. The start time is set
   * 100 ms ahead, so the first check is due 200 ms after the start.
   */
  function Start(now: int): (s: PwmState)
    ensures s.potReading == 0 && s.currentFreq == 0 && !s.ledOn
    ensures s.startTime - now == POLL_PERIOD_MS
    ensures forall t :: Due(s, t) <==> t >= now + 2 * POLL_PERIOD_MS
  {
    PwmState(0, 0, false, now + POLL_PERIOD_MS)
  }

  /** The loop's elapsed-time test: at least 100 ms since the last check. */
  function Due(s: PwmState, now: int): (due: bool)
    ensures due <==> now >= s.startTime + POLL_PERIOD_MS
  {
    now - s.startTime >= POLL_PERIOD_MS
  }

  /** The blink frequency a potentiometer reading selects (C integer division). */
  function Frequency(reading: int): (f: int)
    ensures Abs(f) == Abs(reading) / FREQUENCY_DIV_FACTOR
    ensures f != 0 ==> (f > 0 <==> reading > 0)
  {
    CDiv(reading, FREQUENCY_DIV_FACTOR)
  }

  /** The frequency is zero exactly for readings of magnitude below 40. */
  lemma FrequencyZeroIff(reading: int)
    ensures Frequency(reading) == 0 <==> -FREQUENCY_DIV_FACTOR < reading < FREQUENCY_DIV_FACTOR
  {
    CDivZeroIff(reading, FREQUENCY_DIV_FACTOR);
  }

  /**
   * The PWM period in nanoseconds for a non-zero frequency: the largest
   * period that still fits `freq` times into a second.
   */
  function Period(freq: int): (p: int)
    requires freq != 0
    ensures freq > 0 ==> 0 <= p && p * freq <= NANOSECONDS_IN_A_SECOND < (p + 1) * freq
  {
    CDiv(NANOSECONDS_IN_A_SECOND, freq)
  }

  /** Half the period, truncated: the LED is on for half of each period. */
  function DutyCycle(period: int): (d: int)
    ensures period >= 0 ==> 0 <= 2 * d <= period <= 2 * d + 1
  {
    CDiv(period, 2)
  }

  /**
   * One pass of the PWM loop at time `now` with potentiometer reading
   * `reading`; the period is only computed for a non-zero frequency.
   */
  function Update(s: PwmState, now: int, reading: int): (r: StepResult)
    ensures !Due(s, now) ==> r == StepResult(s, [])
    ensures Due(s, now) ==> r.state.startTime == now
    ensures Due(s, now) && reading == s.potReading ==> r == StepResult(s.(startTime := now), [])
    ensures Due(s, now) && reading != s.potReading ==>
              r.state.potReading == reading && r.state.currentFreq == Frequency(reading)
  {
    if now - s.startTime >= POLL_PERIOD_MS then
      if reading != s.potReading then
        var freq := Frequency(reading);
        if freq == 0 then
          StepResult(PwmState(reading, freq, false, now), [Write(EnableFile, 0)])
        else
          var period := Period(freq);
          var enable := if s.ledOn then [] else [Write(EnableFile, 1)];
          StepResult(PwmState(reading, freq, true, now),
                     [Write(PeriodFile, period), Write(DutyCycleFile, DutyCycle(period))] + enable)
      else
        StepResult(s.(startTime := now), [])
    else
      StepResult(s, [])
  }

  /** A changed reading that selects frequency zero only disables the LED. */
  lemma UpdateZeroFrequency(s: PwmState, now: int, reading: int)
    requires Due(s, now) && reading != s.potReading && Frequency(reading) == 0
    ensures Update(s, now, reading).writes == [Write(EnableFile, 0)]
    ensures !Update(s, now, reading).state.ledOn
  {
  }

  /**
   * A changed reading that selects a non-zero frequency writes the period
   * and duty cycle, then enables the LED only if it was off.
   */
  lemma UpdateNonZeroFrequency(s: PwmState, now: int, reading: int)
    requires Due(s, now) && reading != s.potReading && Frequency(reading) != 0
    ensures var r := Update(s, now, reading);
      && r.state.ledOn
      && |r.writes| == (if s.ledOn then 2 else 3)
      && r.writes[0] == Write(PeriodFile, Period(Frequency(reading)))
      && r.writes[1] == Write(DutyCycleFile, DutyCycle(Period(Frequency(reading))))
      && (!s.ledOn ==> r.writes[2] == Write(EnableFile, 1))
  {
  }

  /** Whether the LED ends up enabled after `writes`, given that it was `before`. */
  function EnabledAfter(writes: seq<Write>, before: bool): bool
    decreases |writes|
  {
    if writes == [] then before
    else
      var last := writes[|writes| - 1];
      if last.file == EnableFile then last.value != 0
      else EnabledAfter(writes[..|writes| - 1], before)
  }

  /** Enable is written 1 exactly on an off-to-on transition, and 0 exactly when a changed reading selects frequency zero. */
  lemma EnableWrittenOnTransitions(s: PwmState, now: int, reading: int)
    ensures var r := Update(s, now, reading);
      && (Write(EnableFile, 1) in r.writes <==> !s.ledOn && r.state.ledOn)
      && (Write(EnableFile, 0) in r.writes <==>
            Due(s, now) && reading != s.potReading && Frequency(reading) == 0)
  {
  }

  /** If the enable file agreed with `ledOn` before a pass, it agrees afterwards. */
  lemma LedOnTracksEnableFile(s: PwmState, now: int, reading: int)
    ensures EnabledAfter(Update(s, now, reading).writes, s.ledOn) == Update(s, now, reading).state.ledOn
  {
    var r := Update(s, now, reading);
    if Due(s, now) && reading != s.potReading && Frequency(reading) != 0 && s.ledOn {
      assert r.writes[..1] == [Write(PeriodFile, Period(Frequency(reading)))];
      assert r.writes[..1][..0] == [];
      assert EnabledAfter(r.writes[..1], s.ledOn) == s.ledOn;
    }
  }

  /** The stored frequency belongs to the stored reading, and the LED is on exactly for a non-zero frequency. */
  predicate Consistent(s: PwmState)
  {
    s.currentFreq == Frequency(s.potReading) && (s.ledOn <==> s.currentFreq != 0)
  }

  lemma StartIsConsistent(now: int)
    ensures Consistent(Start(now))
  {
    assert Frequency(0) == 0;
  }

  lemma UpdatePreservesConsistent(s: PwmState, now: int, reading: int)
    requires Consistent(s)
    ensures Consistent(Update(s, now, reading).state)
  {
  }

  // ---------------------------------------------------------------------------
  // The pass as written: the period is divided out before the zero test

  /** The division at the top of a changed-reading pass has a non-zero divisor. */
  predicate AsWrittenDefined(s: PwmState, now: int, reading: int)
  {
    Due(s, now) && reading != s.potReading ==> Frequency(reading) != 0
  }

  function UpdateAsWritten(s: PwmState, now: int, reading: int): (r: StepResult)
    requires AsWrittenDefined(s, now, reading)
    ensures r == Update(s, now, reading)
  {
    if now - s.startTime >= POLL_PERIOD_MS then
      if reading != s.potReading then
        var freq := Frequency(reading);
        var period := CDiv(NANOSECONDS_IN_A_SECOND, freq);
        var dutyCycle := CDiv(period, 2);
        if freq == 0 then
          StepResult(PwmState(reading, freq, false, now), [Write(EnableFile, 0)])
        else
          var enable := if s.ledOn then [] else [Write(EnableFile, 1)];
          StepResult(PwmState(reading, freq, true, now),
                     [Write(PeriodFile, period), Write(DutyCycleFile, dutyCycle)] + enable)
      else
        StepResult(s.(startTime := now), [])
    else
      StepResult(s, [])
  }

  /** As written, every due pass with a new reading of magnitude below 40 divides by zero. */
  lemma AsWrittenDividesByZero(s: PwmState, now: int, reading: int)
    requires Due(s, now) && reading != s.potReading
    ensures !AsWrittenDefined(s, now, reading) <==> -FREQUENCY_DIV_FACTOR < reading < FREQUENCY_DIV_FACTOR
  {
    FrequencyZeroIff(reading);
  }

  /** The first check after start (200 ms in) with a reading of 39 reaches the zero divisor. */
  lemma AsWrittenFailsOnFirstPass(now: int)
    ensures Due(Start(now), now + 2 * POLL_PERIOD_MS)
    ensures !AsWrittenDefined(Start(now), now + 2 * POLL_PERIOD_MS, 39)
  {
    FrequencyZeroIff(39);
  }

  // ---------------------------------------------------------------------------
  // The module's state

  class PwmLed {
    var isInitialized: bool
    var potReading: int
    var currentFreq: int
    var ledOn: bool
    /** When the loop last looked at the potentiometer (ms). */
    var startTime: int

    function State(): PwmState
      reads this
    {
      PwmState(potReading, currentFreq, ledOn, startTime)
    }

    ghost predicate Valid()
      reads this
    {
      Consistent(State())
    }

    /** The module's state before initialisation, as its static initialisers set it. */
    constructor ()
      ensures Valid() && !isInitialized
      ensures potReading == 0 && currentFreq == 0 && !ledOn
    {
      isInitialized := false;
      potReading := 0;
      currentFreq := 0;
      ledOn := false;
      startTime := 0;
      assert Frequency(0) == 0;
    }

    /** Starts the loop at `now`. */
    method Init(now: int)
      requires !isInitialized
      modifies this`isInitialized, this`startTime
      ensures isInitialized && startTime == Start(now).startTime
    {
      isInitialized := true;
      startTime := now + POLL_PERIOD_MS;
    }

    /** Stops the loop and disables the LED; `ledOn` keeps its value. */
    method Cleanup() returns (writes: seq<Write>)
      requires isInitialized
      modifies this`isInitialized
      ensures !isInitialized
      ensures writes == [Write(EnableFile, 0)]
    {
      isInitialized := false;
      writes := [Write(EnableFile, 0)];
    }

    /**
     * One pass of the PWM loop, with the period and duty cycle computed only
     * for a non-zero frequency; `writes` are the file writes in the order issued.
     */
    method Step(now: int, reading: int) returns (writes: seq<Write>)
      requires Valid()
      modifies this`potReading, this`currentFreq, this`ledOn, this`startTime
      ensures Valid()
      ensures StepResult(State(), writes) == Update(old(State()), now, reading)
    {
      UpdatePreservesConsistent(State(), now, reading);
      writes := [];
      var currentTime := now;
      if currentTime - startTime >= POLL_PERIOD_MS {
        if reading != potReading {
          potReading := reading;
          currentFreq := CDiv(potReading, FREQUENCY_DIV_FACTOR);
          if currentFreq == 0 {
            writes := writes + [Write(EnableFile, 0)];
            ledOn := false;
          } else {
            var period := CDiv(NANOSECONDS_IN_A_SECOND, currentFreq);
            var dutyCycle := CDiv(period, 2);
            writes := writes + [Write(PeriodFile, period)];
            writes := writes + [Write(DutyCycleFile, dutyCycle)];
            if !ledOn {
              writes := writes + [Write(EnableFile, 1)];
              ledOn := true;
            }
          }
        }
        startTime := currentTime;
      }
    }

    function GetPotReading(): (r: int)
      reads this
      requires isInitialized
      ensures r == State().potReading
    {
      potReading
    }

    /** The frequency always belongs to the reading the getter above returns. */
    function GetFrequency(): (f: int)
      reads this
      requires Valid() && isInitialized
      ensures f == Frequency(GetPotReading())
      ensures f == 0 <==> !ledOn
    {
      currentFreq
    }
  }
}
