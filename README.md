# Ambient sound-level alerter: the sampling tick

This project models the sampling loop of a browser page that shows microphone
loudness as a live bar chart. Every 250 ms a tick does the following:

1. It reads one snapshot of the analyser's frequency magnitudes. These are 512
   unsigned bytes: half the FFT size of 1024.
2. It averages the snapshot into a sound level.
3. It writes the level into a 240-slot circular buffer, and the elapsed-time
   label into a parallel 240-slot label buffer at the same index. When the
   write index is 0 the level goes to the last slot and slot 0 is cleared
   instead.
4. It advances the write index modulo 240.
5. It shows the alert background when the level is strictly above the current
   threshold. The threshold starts at 20 and the page's spinner can change it.

Everything is in `sound_level.dfy`, in module `SoundLevel`:

- Pure definitions state what one tick and a run of ticks do:
  - `Sum`, `Average` and `Exceeds` give the level and the alert test.
  - `Buffers` is the state as a value.
  - `Store` is one tick's writes to the buffers.
  - `Replay` is the state after a sequence of ticks from page load.
- Lemmas prove what those writes lead to. The index after k ticks is k mod
  240. Slot 0 never holds a level. The layout and occupancy of the first
  round are fixed.
- Class `Monitor` holds the page's state as two arrays, the write index and the
  threshold. Its `Tick` method performs the writes in place. Its sum is an
  accumulating loop. `Tick` is proved to leave exactly the state `Store`
  describes. The object invariant `Valid()` says that the arrays and the index
  are what `Replay` gives for the ticks so far.

Levels are exact reals: the snapshot sum divided by its length. The threshold
is an integer, because the spinner parses it with `parseInt`. Time labels are a
datatype. `Zero` is the numeric 0 the label buffer is filled with at load time.
`Seconds(text)` is the two-decimal text a tick writes. The tick receives that
text as input.

Consequences of the index-0 write that the lemmas make explicit:

- Slot 0 is only ever cleared, so it never shows a level (`SlotZeroNeverHoldsLevel`).
- During the first round, slot 239 shows the first tick's level but still has
  the initial label 0, while the first tick's label sits in slot 0.
- After k ticks the buffer holds k levels for 1 <= k <= 239, but only 239
  after 240 ticks. The 240th tick overwrites the first level
  (`OccupancyFirstRound`). The buffer never holds more than 239 levels
  (`OccupancyBound`).
- A level written at index 239 is replaced by the very next tick
  (`LastSlotLevelLastsOneTick`).

## Model

| member | source | states |
|---|---|---|
| `SoundLevel.Sum` | script.js:94-97 | the accumulated sum of a byte snapshot lies between 0 and 255 times its length |
| `SoundLevel.Average` | script.js:94-98 | the level is the exact arithmetic mean of the snapshot (level times length equals the sum) and lies in [0, 255] |
| `SoundLevel.AlertIffSumExceeds` | script.js:116 | the alert test `average > maxLevel` holds exactly when the integer sum exceeds threshold times snapshot length |
| `SoundLevel.UniformAverage` | script.js:94-98 | a snapshot whose bins all hold v has level v |
| `SoundLevel.Initial` | script.js:14-17 | at page load both buffers have 240 slots, every level slot is empty, every label is 0 and the write index is 0 |
| `SoundLevel.Store` | script.js:105-113 | one tick keeps both buffers at 240 slots and advances the index modulo 240; at a nonzero index it sets that level slot and no other; at index 0 it sets the last slot, clears slot 0 and leaves slots 1..238 alone; it sets exactly one label, at the pre-advance index |
| `SoundLevel.Replay` | script.js:105-113 | any sequence of ticks from page load leaves both buffers at 240 slots and the index in [0, 240) |
| `SoundLevel.IndexAfterTicks` | script.js:113 | after k ticks the write index equals k mod 240 |
| `SoundLevel.SlotZeroNeverHoldsLevel` | script.js:105-110 | after any number of ticks level slot 0 is empty |
| `SoundLevel.FirstRoundLevels` | script.js:105-110 | after k ticks, 1 <= k <= 240: slot 0 is empty, slot j in 1..k-1 holds tick j+1's level, the last slot holds the first tick's level while k < 240, and the other slots are empty |
| `SoundLevel.FirstRoundTimes` | script.js:112-113 | after k <= 240 ticks, label slot j < k holds tick j+1's label and every later slot still holds 0 |
| `SoundLevel.OccupancyFirstRound` | script.js:105-113 | after k ticks the buffer holds k levels for 1 <= k < 240 and 239 levels after 240 ticks |
| `SoundLevel.OccupancyBound` | script.js:105-110 | after any number of ticks at most 239 slots hold a level |
| `SoundLevel.LastSlotLevelLastsOneTick` | script.js:105-109 | a level written at index 239 is in the last slot after its tick and is replaced there by the next tick's level |
| `SoundLevel.Monitor.constructor` | script.js:14-18 | fresh 240-slot arrays with every level empty and every label 0, write index 0, threshold 20, no ticks yet |
| `SoundLevel.Monitor.Tick` | script.js:91-126 | the in-place tick leaves exactly the buffers `Store` gives for the snapshot's mean and the label; it keeps the object invariant, the index equals the tick count mod 240 and slot 0 stays empty; it returns alert exactly when the mean is strictly above the threshold read at this tick; the threshold itself is unchanged |
| `SoundLevel.Monitor.SetMaxLevel` | script.js:153 | the threshold becomes the given integer and the buffers are untouched |
| `SoundLevel.ThresholdChangeScenario` | script.js:116-122 | a steady level of 30 alerts under the initial threshold 20, and stops alerting at the next tick once the threshold is raised to 50 |

## Left out

- Chart.js and the DOM: element lookups, chart configuration, the annotation line, `innerHTML` writes, background-colour styles and `chart.update()` are UI. The alert is the boolean `Tick` returns.
- Web Audio: `getUserMedia`, `AudioContext`, the analyser and `getByteFrequencyData` are browser APIs. The snapshot is an input of 512 bytes.
- The `then` callback that resumes `audioContext` refers to a name that is not in scope there. It is not modelled.
- `setTimeout` re-arming: one call of `Tick` is one tick. Timing and the drift between ticks are not modelled.
- The clock and number formatting: `new Date()` and `toFixed(2)` are not modelled. The elapsed-time text is an input.
- The start/stop button and `location.reload()` are page-level control flow. They are not modelled.
- SetMaxLevel: models only the assignment of the new threshold. `parseInt` and its NaN result are library string parsing and are not modelled. Neither is the annotation update. The handler then throws on the undefined name `blue`, after the threshold has already changed, so the rest of the handler is UI that never runs.
- Average: the JavaScript double division is modelled as exact real division. For the 512-bin snapshot this loses nothing: the sum is at most 130560, far below 2^53, and 512 is a power of two, so the double quotient is exact.
