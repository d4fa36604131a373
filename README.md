# Light-dip sampler: a Dafny model

This project models the core of a BeagleBone light-dip detector.

- **The sampler** (`hal/src/sampler.c`). A photoresistor is sampled about once per millisecond. Each reading is scaled from a raw A2D count to volts and appended to a current window. The window holds at most 1000 readings.
- **Dip detection.** Each reading goes through a two-threshold dip detector. The detector compares the reading with an exponentially smoothed light level, and it uses that level as it stood *before* the reading is folded in. A dip is counted when a reading falls 0.1 V or more below the average. The detector then stays disarmed until a reading comes back within 0.07 V of the average.
- **The swap.** Once per second a polling loop publishes the window as the history: the data, its size and its dip count. It then resets the window and the detector. A terminal line shows up to ten history samples.
- **The potentiometer LED** (`hal/src/potLed.c`). Every 100 ms a second loop reads a potentiometer. When the reading has changed, the loop derives a blink frequency (reading / 40). It rewrites the PWM period (10^9 / frequency ns) and the duty cycle (half the period). It writes enable = 1 only when the LED switches on from off, and enable = 0 on every changed reading whose frequency is zero, even when the LED was already off.
- **The GUI's reply parser** (`as2UdpGui.py`, `rxTextToData`). It turns a received reply into a list of numbers. Spaces, line feeds and carriage returns become commas. The ends are stripped, the text is split on commas, and the fields that parse as numbers are kept.

Modules:

- `CArith` (`carith.dfy`): C's truncating integer division `CDiv`. Dafny's own `/` is Euclidean.
- `Sampler` (`sampler.dfy`):
  - class `LightSampler`: the two `array<real>` buffers and the counters, as fields that its methods update in place;
  - the pure dip machine `DipStep`/`Run` and the average `Ema`, which specify those methods;
  - the terminal index selection.
  
  A ghost field records the average that each reading of the open window was compared with. The class invariant `Valid()` says that `(dipAllowed, numDips)` is exactly what the dip machine yields over the window's readings, starting armed. It says the same for the published history and `historyDips`.
- `PotLed` (`potled.dfy`):
  - the pure step function `Update` from (state, time, reading) to (state', file writes);
  - class `PwmLed`, whose `Step` method is the loop body with the period and duty cycle computed inside the non-zero branch. The C code divides before the zero test; see the `hal/src/potLed.c:79-82` row under Findings. `Step` is proved equal to `Update`, the corrected pass.
- `RxParse` (`rxparse.dfy`):
  - `Replace`, `Strip`, `Split` and `Join` as functions;
  - the filter `Floats`;
  - the method `RxTextToData`, whose loop is proved against them.
  
  Python's `float` is a parameter `parse: string -> Option<real>`. `None` stands for a `ValueError`, so `is_float(s)` is `parse(s).Some?`.

Inputs from the environment are parameters:
- the raw sensor count (`raw`) and the potentiometer reading (`reading`);
- the millisecond clock (`now`).

File writes to the PWM device are returned as a list of `Write(file, value)` events, in the order issued.

Facts about the code that the model follows:
- **The UDP handler only echoes.** `app/src/network.c` answers every datagram with `"%d bytes received: %s"` (line 67); it interprets no commands. It is not modelled.
- **`Sampler_getHistory` takes no lock.** It reads the caller's `*size` as the number of elements to copy and never sets it (see Findings).
- **`Sampler_getAverageReading` returns the constant 0.** It does not return the average it maintains, although its header promises the average light level (see Findings).
- **The LED loop's first check.** It starts its clock 100 ms ahead (`getTimeInMs() + 100`), so the first check happens 200 ms after start, not 100 ms. `PotLed.Start` states this.

## Model

| member | source | states |
|---|---|---|
| `CArith.CDiv` | hal/src/potLed.c:79-81 | C integer division: the quotient's magnitude is \|a\| / \|b\|, and its sign is positive exactly when the operands' signs agree (truncation toward zero). |
| `CArith.CDivZeroIff` | hal/src/potLed.c:79-82 | A truncating quotient is zero if and only if \|a\| < \|b\|. |
| `Sampler.A2dToVoltage` | hal/src/sampler.c:197-200 | Maps raw counts 0..4095 into 0..1.8 V, with 0 giving 0 V and 4095 giving 1.8 V. |
| `Sampler.A2dToVoltageMonotone` | hal/src/sampler.c:197-200 | A larger raw count never gives a smaller voltage. |
| `Sampler.Ema` | hal/src/sampler.c:151 | The smoothed level after one reading, 0.999·avg + 0.001·reading. It has no contract of its own; `EmaBetween` states its bounds. |
| `Sampler.EmaBetween` | hal/src/sampler.c:151 | The new average `Ema` (0.999·avg + 0.001·reading) lies between the old average and the reading, and differs from the reading unless the old average already equalled it. |
| `Sampler.DipStep` | hal/src/sampler.c:139-148 | One tick of the hysteresis machine. A dip is counted if and only if the detector was armed and reading <= avg - 0.1, and that tick disarms it. A disarmed detector never counts, and it re-arms if and only if reading >= avg - 0.07. |
| `Sampler.Run` | hal/src/sampler.c:139-150 | The machine over a run of readings: the dip count never falls and grows by at most the run's length. |
| `Sampler.RunAppend` | hal/src/sampler.c:138-150 | Appending one reading to the window advances the machine by exactly one `DipStep`. |
| `Sampler.DipCountBound` | hal/src/sampler.c:139-147 | Every dip disarms and only a non-counting tick re-arms. So 2·(dips gained) + armed-after <= ticks + armed-before: two dips are at least two ticks apart. |
| `Sampler.SustainedDipCountsOnce` | hal/src/sampler.c:139-147 | Edge triggering. From an armed state, a reading at or below the dip threshold, followed by readings that stay below the re-arm threshold, counts exactly one dip and leaves the detector disarmed. |
| `Sampler.QuietRunCountsNothing` | hal/src/sampler.c:139-143 | Readings that never reach the dip threshold leave an armed detector unchanged. |
| `Sampler.PointCount` | hal/src/sampler.c:211-216 | The terminal line shows min(10, historySize) samples. |
| `Sampler.LabelScale` | hal/src/sampler.c:212-216 | The label spacing is 1 for a history shorter than 10, and otherwise the largest k with 10·k <= historySize - 1. |
| `Sampler.LabelsInRange` | hal/src/sampler.c:212-219 | Every printed label i·scale is an index below historySize, and labels do not decrease. |
| `Sampler.TerminalLabelMismatch` | hal/src/sampler.c:212-221 | For a full window of 1000 samples, the second printed point carries label 99. |
| `Sampler.LightSampler.constructor` | hal/src/sampler.c:22-32 | The static initial state: both buffers zero, every counter 0, the detector armed, not initialised. |
| `Sampler.LightSampler.Init` | hal/src/sampler.c:45-59 | Requires not initialised. Sets the flag, seeds the average with the voltage of one reading and starts the swap clock. Nothing else changes. |
| `Sampler.LightSampler.Cleanup` | hal/src/sampler.c:61-72 | Requires initialised and clears the flag. Nothing else changes. |
| `Sampler.LightSampler.MoveCurrentDataToHistory` | hal/src/sampler.c:77-89 | Copies the whole current buffer into the history buffer element by element. The history becomes the closed window, with historySize = currentSize and historyDips = numDips. Then currentSize = 0, numDips = 0 and dipAllowed = true. numSamplesTaken, the average and the current buffer are untouched. |
| `Sampler.LightSampler.StoreSample` | hal/src/sampler.c:138-150 | Writes the reading at index currentSize and leaves every other slot alone. The window grows by exactly that reading, and currentSize and numSamplesTaken each grow by 1. |
| `Sampler.LightSampler.Observe` | hal/src/sampler.c:139-151 | Advances the detector by exactly one `DipStep`, against the average as it stood before this reading. Records that average for the window, then sets the average to `Ema` of it and the reading. |
| `Sampler.LightSampler.SampleTick` | hal/src/sampler.c:132-152 | Requires currentSize < 1000. Stores the voltage at index currentSize and leaves every other slot alone. Increments currentSize and numSamplesTaken by exactly 1. Advances the detector by `DipStep` against the pre-update average, then sets the average to `Ema`. Keeps `Valid()`, so numDips <= currentSize <= 1000 and historyDips <= historySize hold after any sequence of ticks and swaps. |
| `Sampler.LightSampler.SwapPoll` | hal/src/sampler.c:158-165 | Swaps if and only if now - startTime >= 1000; startTime then becomes now. Otherwise nothing changes. |
| `Sampler.LightSampler.GetHistorySize` | hal/src/sampler.c:92-96 | Returns the length of the published window, at most 1000. |
| `Sampler.LightSampler.GetHistoryNumDips` | hal/src/sampler.c:126-129 | Returns the number of dips the machine counts over the published window, and 2·dips <= historySize + 1. |
| `Sampler.LightSampler.GetNumSamplesTaken` | hal/src/sampler.c:119-123 | Returns the running sample total. That no swap resets it is stated by `SwapPoll` and `MoveCurrentDataToHistory`, which leave numSamplesTaken unchanged. |
| `Sampler.LightSampler.GetAverageReading` | hal/src/sampler.c:112-116 | Requires initialised and returns 0, whatever the average is. |
| `Sampler.LightSampler.GetAverageLightLevel` | hal/include/hal/sampler.h:39-40 | Corrected: requires initialised and returns the smoothed light level the sampler maintains. |
| `Sampler.LightSampler.GetHistoryAsWritten` | hal/src/sampler.c:103-109 | As written: copies exactly the first `size` history-buffer slots, where `size` is the caller's input (0..1000). |
| `Sampler.LightSampler.GetHistory` | hal/src/sampler.c:98-102 | As documented: returns the published window together with its size, and the two are consistent. |
| `Sampler.LightSampler.OutputPointsAsWritten` | hal/src/sampler.c:211-223 | As written: min(10, historySize) points, point i labelled i·scale but showing history sample i. |
| `Sampler.LightSampler.OutputPoints` | hal/src/sampler.c:211-223 | Corrected: the same labels, each showing the history sample at its own index, which lies within the window. |
| `Sampler.GetHistoryIgnoresHistorySize` | hal/src/sampler.c:103-107 | As written, a caller passing any size other than historySize gets data whose length disagrees with the history's size. |
| `Sampler.GetHistoryAsWrittenIsPrefix` | hal/src/sampler.c:103-107 | For sizes up to historySize, the as-written getter returns the first `size` elements of the published window. |
| `Sampler.AverageReadingIgnoresAverage` | hal/src/sampler.c:111-116 | As written, whenever the maintained average is not zero, the getter's result differs from it. |
| `PotLed.Start` | hal/src/potLed.c:72-75 | startTime = now + 100, so the first check is due exactly at now + 200. The reading 0, frequency 0 and the LED off that it also starts from are the static initialisers at hal/src/potLed.c:24-27. |
| `PotLed.Due` | hal/src/potLed.c:75 | A pass acts exactly when now >= startTime + 100. |
| `PotLed.Frequency` | hal/src/potLed.c:79 | reading / 40 truncated toward zero: the magnitude is \|reading\| / 40, and a non-zero frequency has the reading's sign. |
| `PotLed.FrequencyZeroIff` | hal/src/potLed.c:79-82 | The frequency is 0 if and only if -40 < reading < 40. |
| `PotLed.Period` | hal/src/potLed.c:80 | For a positive frequency, the period is the largest p with p·freq <= 10^9. |
| `PotLed.DutyCycle` | hal/src/potLed.c:81 | The duty cycle is half the period, rounded down. |
| `PotLed.Update` | hal/src/potLed.c:73-95 | Before 100 ms have passed nothing changes and nothing is written. Once they have, startTime becomes now whether or not the reading changed. An unchanged reading changes nothing else and writes nothing. A changed reading sets potReading and currentFreq = reading / 40. |
| `PotLed.UpdateZeroFrequency` | hal/src/potLed.c:82-84 | A changed reading with frequency 0 writes only enable = 0, and the LED is then off. |
| `PotLed.UpdateNonZeroFrequency` | hal/src/potLed.c:85-91 | A changed reading with a non-zero frequency writes the period, then the duty cycle, then enable = 1 only if the LED was off. The LED is then on. |
| `PotLed.EnableWrittenOnTransitions` | hal/src/potLed.c:82-91 | enable = 1 is written if and only if the LED goes from off to on. enable = 0 is written if and only if a due pass sees a changed reading with frequency 0. |
| `PotLed.LedOnTracksEnableFile` | hal/src/potLed.c:82-91 | If the enable file agreed with `ledOn` before a pass, it agrees afterwards. |
| `PotLed.StartIsConsistent` | hal/src/potLed.c:24-27 | The start state satisfies the invariant: frequency = reading / 40, and the LED is on exactly for a non-zero frequency. |
| `PotLed.UpdatePreservesConsistent` | hal/src/potLed.c:77-92 | Every pass preserves that invariant. |
| `PotLed.UpdateAsWritten` | hal/src/potLed.c:77-93 | As written, with the division before the zero test. Wherever that division is defined, it equals `Update`. |
| `PotLed.AsWrittenDividesByZero` | hal/src/potLed.c:79-82 | A due pass with a changed reading divides by zero if and only if -40 < reading < 40. |
| `PotLed.AsWrittenFailsOnFirstPass` | hal/src/potLed.c:72-82 | The first check after start, with a reading of 39, reaches the zero divisor. |
| `PotLed.PwmLed.constructor` | hal/src/potLed.c:23-27 | The static initial state: not initialised, reading 0, frequency 0, LED off. |
| `PotLed.PwmLed.Init` | hal/src/potLed.c:36-42 | Requires not initialised. Sets the flag, and startTime = now + 100. |
| `PotLed.PwmLed.Cleanup` | hal/src/potLed.c:45-52 | Requires initialised, clears the flag and writes exactly enable = 0. |
| `PotLed.PwmLed.Step` | hal/src/potLed.c:73-95 | The loop body, corrected so that the period and duty cycle are computed only for a non-zero frequency (Findings, potLed.c:79-82). The new state and the writes, in the order issued, are exactly `Update` of the old state. The invariant is kept. |
| `PotLed.PwmLed.GetPotReading` | hal/src/potLed.c:55-59 | Requires initialised and returns the stored reading. |
| `PotLed.PwmLed.GetFrequency` | hal/src/potLed.c:62-66 | Requires initialised. Returns the frequency that belongs to the stored reading, which is 0 exactly when the LED is off. |
| `RxParse.IsFloat` | as2UdpGui.py:46-51 | True exactly when the parser returns a value, that is, when `float` raises no `ValueError`. |
| `RxParse.Replace` | as2UdpGui.py:54-56 | Same length, with every occurrence of one character replaced by another and every other character kept. |
| `RxParse.Normalize` | as2UdpGui.py:54-56 | Every space, `\n` and `\r` becomes `,`, and no such character remains. |
| `RxParse.StripLeft` | as2UdpGui.py:57 | A suffix of the text that does not start with `,`, space or `\n`; everything removed is one of those. |
| `RxParse.StripRight` | as2UdpGui.py:57 | A prefix of the text that does not end with `,`, space or `\n`; everything removed is one of those. |
| `RxParse.Strip` | as2UdpGui.py:57 | The stripped text is a contiguous slice of the input, everything removed before and after it is `,`, space or `\n`, and the slice neither starts nor ends with one of those. |
| `RxParse.Split` | as2UdpGui.py:58 | (number of commas) + 1 fields, none holding a comma, all made of the text's characters. |
| `RxParse.JoinSplit` | as2UdpGui.py:58 | Joining the fields with commas gives the text back. |
| `RxParse.SplitJoin` | as2UdpGui.py:58 | Splitting comma-free fields after joining gives the fields back. |
| `RxParse.Fields` | as2UdpGui.py:54-58 | `asList`: the normalised, stripped text split on commas. It has no contract of its own; `FieldsAreClean` says what its fields hold, and `RxTextToData` is proved against it. |
| `RxParse.FieldsAreClean` | as2UdpGui.py:54-58 | No field holds a comma, space, CR or LF. |
| `RxParse.Floats` | as2UdpGui.py:59-62 | At most one value per field. Exactly one per field when all fields parse, and none when no field parses. |
| `RxParse.FloatsAppend` | as2UdpGui.py:59-62 | Filtering distributes over concatenation, so the values keep the fields' order. |
| `RxParse.FloatsFromAcceptedFields` | as2UdpGui.py:59-62 | Every value is the parse of a field that `is_float` accepts. |
| `RxParse.FloatsStep` | as2UdpGui.py:59-62 | Looking at one more field appends its value exactly when `is_float` accepts it, so the loop keeps the fields' order. |
| `RxParse.RxTextToData` | as2UdpGui.py:53-63 | The loop returns exactly `Floats` of the fields of the replaced-and-stripped text. Its length is at most (commas in the stripped text) + 1. |

## Left out

- **Threads and locks.** Threads, the mutex, `pthread_create`/`join`, the `isRunning` flags and the busy-poll loops are absent. Each loop body is one atomic step (`SampleTick`, `SwapPoll`, `PwmLed.Step`). As a result, the model does not capture:
  - that the getters read without the lock;
  - that the lock is held across the sensor read;
  - that `Sampler_cleanup` stops the loops.
- **`Sampler_getHistoryMutexRef`** hands out the mutex itself and has no counterpart, since no mutex is modelled.
- **Sensor reads.** The sysfs reads (`fopen`/`fscanf` in `getVoltage1Reading`, `getVoltage0Reading`) and their `exit(-1)` error paths are method parameters `raw`/`reading`.
- **PWM file writes and `popen`.** `writeValueToFile` becomes a `Write` event; its `exit` on a failed open or write is not modelled. `runCommand("config-pin ...")` in `PotLed_init` is a shell call and is left out.
- **`Period_markEvent` and `Period_getStatisticsAndClear`.** They are declared in `hal/periodTimer.h` and lie outside the modelled files, so they are treated as external calls with no effect on the model. The same goes for the `malloc` of `pStats` in `Sampler_init`.
- **`SigDisplay_setNumber(historyDips)`** in the swap loop is declared in `hal/include/hal/sigDisplay.h` but not defined in `hal/src/sigDisplay.c`, and is left out. Its argument is what `GetHistoryNumDips` returns. The rest of `hal/src/sigDisplay.c` is I2C plumbing and is not part of this model.
- **`printf` formatting in `outputDataToTerminal`.** Only the choice of points is modelled (`OutputPointsAsWritten`). `SwapPoll` does not call it: it is the printing step right after the swap.
- **`app/src/network.c`, `app/src/main.c`, and the Tk/matplotlib GUI, UDP socket and listener thread in `as2UdpGui.py`** are I/O and placeholder code, and are not part of this model.
- **`Sampler.A2dToVoltage`** uses exact real arithmetic instead of double precision and makes no claim about IEEE rounding.
- **`Sampler.EmaBetween`** likewise states `Ema` in exact real arithmetic instead of double precision.
- **`Sampler.LightSampler.SampleTick`**:
  - its precondition currentSize < 1000 stands for the missing bounds check on the buffer write, which is undefined behaviour in C;
  - `numSamplesTaken` is unbounded, so the overflow of `long long`, which is undefined behaviour in C, is not modelled (it cannot occur in practice).
- **`Sampler.LightSampler.GetHistoryAsWritten`** requires 0 <= size <= 1000, because a larger or negative `*size` is an out-of-bounds `malloc`/`memcpy` in C. The returned copy is a value, so the caller's duty to `free` it is not modelled.
- **`Sampler.LightSampler.OutputPoints`** keeps C's stride (historySize-1)/10, which is 0 at historySize = 10. At that size it shows sample 0 ten times, and the model does not correct the stride.
- **`RxParse.RxTextToData`** takes Python's `float` as the parameter `parse`, because its grammar and IEEE conversion are not modelled. `is_float` is exactly `parse(s).Some?`. The non-finite values that `float` accepts (`"nan"`, `"inf"`, `"1e999"`) have no `real` counterpart: such a parser can only map those fields to some finite value or reject them, so the model does not describe them.

## Findings

| source | as written | input that shows it | evidently intended | confidence | as-written member | corrected member |
|---|---|---|---|---|---|---|
| hal/src/sampler.c:103-107 | `Sampler_getHistory` reads `*size` as the number of elements to copy and never sets it, although both the header and the code comment call it an output-only parameter. | A caller passing an uninitialised `size`, or any size other than historySize, gets data whose length disagrees with the history's size; above 1000 the copy goes outside the buffer. | Return the published window and set `*size = historySize`, consistently. | high; not executed | `Sampler.LightSampler.GetHistoryAsWritten` (exhibited by `Sampler.GetHistoryIgnoresHistorySize`) | `Sampler.LightSampler.GetHistory` |
| hal/src/potLed.c:79-82 | `period = 1000000000 / currentFreq` is evaluated before the `currentFreq == 0` test. | Any changed reading with -40 < reading < 40, for example 39 at the first check after start, divides by zero. | Compute the period and duty cycle only in the non-zero branch. | high; not executed | `PotLed.UpdateAsWritten` (exhibited by `PotLed.AsWrittenDividesByZero`, `PotLed.AsWrittenFailsOnFirstPass`) | `PotLed.Update` |
| hal/src/sampler.c:217-221 | Point i is printed with label `i*scalingFactor` but value `historyBuffer[i]`. | historySize = 1000: the second point reads "99:" followed by sample 1. | Print `historyBuffer[i*scalingFactor]` under that label. This also needs a stride of at least 1: at historySize = 10, C's (10-1)/10 is 0, so the corrected line shows sample 0 ten times, all under label 0. | medium; not executed | `Sampler.LightSampler.OutputPointsAsWritten` (exhibited by `Sampler.TerminalLabelMismatch`) | `Sampler.LightSampler.OutputPoints` |
| hal/src/sampler.c:111-116 | `Sampler_getAverageReading` returns the constant 0, although its comment and the header (`hal/include/hal/sampler.h:39`) promise the average light level. | After `Sampler_init` seeds the average with a full-scale reading (4095 counts, 1.8 V), the getter returns 0 instead of 1.8. | Return `avgLightReading`. | high; not executed | `Sampler.LightSampler.GetAverageReading` (exhibited by `Sampler.AverageReadingIgnoresAverage`) | `Sampler.LightSampler.GetAverageLightLevel` |
