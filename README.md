# Pico Clock button handler, in Dafny

Pico Clock is MicroPython firmware for a Raspberry Pi Pico used as a
square-wave signal generator. Six buttons edit and start the output
frequency: Reset, Cycle (bump the last decimal digit), Shift (one more
decimal place), Set (start), StartStop (toggle) and Pulse (one single
half-period pulse). Every button raises the same interrupt handler,
`PicoClock.button_pressed_handler`. That handler first applies a 500 ms
debounce that is shared by all buttons. It then runs the branch for the
button, which reads and updates the clock's fields: frequency, running
flag, last accepted time and the active generator. The generator is a
periodic software timer below 10 Hz and hardware PWM at duty 32512
otherwise.

The project has four modules:

- `Decimal` (decimal.dfy): Python's `str(n)` and `int(s)` on natural
  numbers, as `ToDecimal` and `ParseDecimal`, with the round trip between
  them.
- `ClockModel` (clock_model.dfy): the constants, the state `Clock`, and
  the buttons as the enum `Button`. The generator is the abstract value
  `Gen = NoGen | SoftTimer(freq) | Pwm(freq, duty)`. The kind of object
  held in `pwm_clock` is `Output = PinOut | PwmOut`. The observable reply
  `Reply` holds the display messages, the width of a pulse and the
  teardown a stop performs. The reply `Raised` stands for an exception
  that leaves the handler. `Dispatch` is one branch of the handler.
  `Step` is one whole call: debounce, dispatch, and the timestamp update
  that the early "Err " returns skip. `Run` folds `Step` over a sequence
  of presses. The Cycle edit is given twice. `CycleDigitText` works on
  the decimal text, as the firmware does. `CycleDigit` works on numbers.
  A lemma proves the two equal.
- `ClockDevice` (pico_clock.dfy): the class `PicoClock` with the fields
  the handler updates in place. `ButtonPressed` is the handler as an
  imperative method with the same `if`/`elif` chain and early returns,
  and it is proved to equal `Step` on the fields.
- `ClockProperties` (clock_properties.dfy): lemmas about `Step`. They
  cover debounce and the timestamp, the error returns, each edit, start,
  stop and pulse. They also prove an invariant, `Reachable`, that every
  state reached from power-up keeps, and replay two scenarios.

Time is an unbounded integer number of milliseconds. The frequency has
the type `Hz`, a natural number of at least 1; no edit can produce 0.
Because the multiplier is the constant 1, the effective frequency
`Effective(f)` is `f * DEFAULT_CLOCK_MULTIPLIER`, written out as in the
firmware.

Where the handler's behaviour differs from what one might read into its
design, the model follows the code:

- Shift leaves a frequency alone only when it is above 999. So 999
  becomes 9990, not 999 (`ShiftExamples`).
- The "Err " returns skip the `last_time` update. So after an error, the
  debounce window is not re-armed, and a second press 1 ms later is
  processed (`DebounceNotRearmedByError`). This cannot happen from
  power-up, because the limit check never fires there
  (`DebounceWindowFromPowerOn`).
- StartStop marks the clock running before its limit check. Set checks
  first (`StartOverLimit`).
- A stop chooses its teardown by `clock_frequency < 10`, without the
  multiplier. A start chooses by the effective frequency.
- `pwm_clock` holds a plain output pin at power-up (main.py:45) and after
  a software-timer start (main.py:123, 146). It holds a `PWM` object after
  a PWM start (main.py:127, 150) and after a PWM stop (main.py:162). A
  MicroPython `PWM` object has no `on` method, so a Pulse while it holds
  one raises at main.py:175. That Pulse emits nothing and skips the
  `last_time` update. This is reachable from power-up: Shift, StartStop,
  StartStop, Pulse (`PulseAfterPwmStopRaises`). Only a later
  software-timer start makes Pulse work again.
- `new_time` is a field that every call overwrites, including a press the
  debounce rejects. The model keeps it as `newTime`.

## Model

| member | source | states |
|---|---|---|
| `Decimal.ToDecimal` | main.py:93-97 | `str(n)` is a non-empty digit string; its last character is the digit `n % 10`; it has one character exactly when `n < 10` |
| `Decimal.ParseToDecimal` | main.py:93-97 | `int(str(n)) == n` for every natural `n` |
| `Decimal.ParseDecimal` | main.py:93-97 | Python's `int(s)` on a string of decimal digits, read most significant digit first |
| `Decimal.DropLastDigit` | main.py:97 | `str(n)[:-1]` is `str(n // 10)`, or empty for a one-digit `n` |
| `ClockModel.NextDigit` | main.py:93-96 | the bumped digit is `d + 1` for `d` in 0..8 and 1 for 9, so it is always in 1..9 |
| `ClockModel.CycleDigit` | main.py:93-97 | the Cycle edit keeps every digit but the last (`r / 10 == f / 10`) and replaces the last by its successor with 9 wrapping to 1 |
| `ClockModel.CycleDigitText` | main.py:93-97 | the Cycle edit as written, on the decimal text: `int(str(f)[:-1] + str(digit))` with `digit` the bumped last character |
| `ClockModel.LastDigitText` | main.py:93 | `int(str(f)[-1])` is `f % 10` |
| `ClockModel.ReplaceLastDigitText` | main.py:97 | `int(str(f)[:-1] + str(d))` is `(f / 10) * 10 + d` for a digit `d` in 1..9 |
| `ClockModel.CycleDigitTextAgrees` | main.py:93-97 | the string edit `int(str(f)[:-1] + str(digit))` equals the arithmetic edit `(f / 10) * 10 + digit` for every frequency, one-digit ones included |
| `ClockModel.HalfPeriodUs` | main.py:174 | the pulse width `h` is the largest whole number of microseconds with `2 * h * f <= 1_000_000` |
| `ClockModel.HalfPeriodBounds` | main.py:174 | `int(1_000_000 / f / 2)`, in integers, fits twice into a period and is the largest whole number that does |
| `ClockModel.Accepted` | main.py:71 | a press is processed exactly when more than 500 ms have passed since `last_time` |
| `ClockModel.ShiftDigits` | main.py:109-110 | Shift multiplies a frequency of at most 999 by ten, leaves a larger one alone, and never takes a four-digit value past 9999 |
| `ClockModel.StartGen` | main.py:122-129 | a start always acquires a generator at the effective frequency: a software timer exactly below 10 Hz, and PWM at duty 32512 otherwise (also main.py:145-152) |
| `ClockModel.StartOutput` | main.py:123-127 | a start leaves the plain pin in `pwm_clock` exactly when it started a software timer, and a PWM object otherwise (also main.py:146-150) |
| `ClockModel.TeardownFor` | main.py:159-164 | a stop deinitialises the timer exactly when `clock_frequency < 10`, and the PWM channel otherwise |
| `ClockModel.Dispatch` | main.py:72-179 | the six branches: none touches the timestamps; none changes the frequency of a running clock; an early return changes nothing except the running flag, and only StartStop changes that |
| `ClockModel.Step` | main.py:69-180 | one call of the handler: it always records `now` in `newTime`; a debounced press changes nothing else and shows nothing; the new `lastTime` is either `now` or the old one |
| `ClockModel.Run` | main.py:69-180 | presses handled one after another; `newTime` ends at the time of the last press |
| `ClockDevice.PicoClock.constructor` | main.py:30-36 | power-up state: frequency 1, stopped, both timestamps 0, no generator |
| `ClockDevice.PicoClock.StartGenerator` | main.py:122-129 | a start installs a software timer at `f` below 10 Hz, PWM at `f` with duty 32512 otherwise, and changes no other field |
| `ClockDevice.PicoClock.ButtonPressed` | main.py:69-180 | the handler run on the object's fields yields exactly the new state and reply of `Step` |
| `ClockProperties.DebounceRejects` | main.py:70-71 | a press within 500 ms of the last accepted one changes nothing but `newTime`, and shows nothing |
| `ClockProperties.ErrorIffOverLimit` | main.py:85-144 | an accepted press ends in "Err " exactly when the effective frequency is over 127,000,000 and the button is Cycle or Shift, or Set or StartStop while stopped |
| `ClockProperties.PulseRaisesIff` | main.py:169-179 | an accepted press raises exactly when it is a Pulse while stopped with a PWM object in `pwm_clock`; then it changes nothing but `newTime` |
| `ClockProperties.TimestampUnlessError` | main.py:86-180 | an accepted press sets `last_time := now` exactly when it neither returned "Err " nor raised; an error keeps frequency, generator, `pwm_clock` and `last_time`, and changes `running` only for StartStop |
| `ClockProperties.DebounceWindowAfterPress` | main.py:70-71 | after an accepted, completed press at `t1`, any press at `t2 <= t1 + 500`, of any button, is rejected |
| `ClockProperties.DebounceNotRearmedByError` | main.py:102-105 | after an "Err " return at 1000 ms, a press at 1001 ms is processed |
| `ClockProperties.ResetEffect` | main.py:72-82 | Reset while stopped sets frequency 1, stays stopped and shows "Rst " then 1; while running it changes only the timestamps |
| `ClockProperties.CycleEffect` | main.py:90-98 | Cycle while stopped keeps `f / 10`, bumps the last digit (wrapping 9 to 1, so never 0), shows the new value and changes nothing else |
| `ClockProperties.ShiftEffect` | main.py:106-111 | Shift while stopped multiplies a frequency of at most 999 by ten and leaves a larger one unchanged, then shows it |
| `ClockProperties.ShiftExamples` | main.py:109-110 | Shift takes 999 to 9990, 1000 to 1000 and 50 to 500 |
| `ClockProperties.CycleTimesDigit` | main.py:93-97 | up to nine Cycle edits of a value whose last digit `d` is not 0 keep the other digits and leave last digit `d + n`, or `d + n - 9` once it has wrapped past 9 |
| `ClockProperties.NineCyclesRestore` | main.py:93-97 | nine Cycle edits return a value whose last digit is not 0 to itself |
| `ClockProperties.CyclePressesWhileStopped` | main.py:83-98 | accepted Cycle presses, each more than 500 ms after the one before, on a stopped clock of at most four digits apply the Cycle edit once per press; the clock stays stopped and keeps its generator and `pwm_clock` |
| `ClockProperties.NineCyclePressesRestore` | main.py:83-98 | nine such Cycle presses give back a frequency whose last digit is not 0, and the clock is still stopped |
| `ClockProperties.FrequencyFrozenWhileRunning` | main.py:74 | no press of any button changes the frequency while the clock runs |
| `ClockProperties.StartEffect` | main.py:114-155 | Set, or StartStop while stopped, within the limit: the clock runs on `SoftTimer(f)` if `f < 10` and on `Pwm(f, 32512)` otherwise, and shows "Run " |
| `ClockProperties.StartOverLimit` | main.py:117-121 | over the limit, Set stays stopped; StartStop (main.py:139-144) is left running with its generator unchanged |
| `ClockProperties.BusyButtonsIgnored` | main.py:90-172 | Set and Pulse while running, and Cycle and Shift while running within the limit, change only the timestamps and show nothing |
| `ClockProperties.PulseEffect` | main.py:169-179 | Pulse while stopped, with the plain pin in `pwm_clock`: it emits one pulse half a period wide and changes only the timestamps; with a PWM object there: it raises, and changes only `newTime` |
| `ClockProperties.StopEffect` | main.py:156-168 | StartStop while running stops and releases the generator. It tears down by `frequency < 10`, and leaves a PWM object in `pwm_clock` on the PWM path. It shows "Stop" then the frequency |
| `ClockProperties.StartStopTwice` | main.py:135-168 | two accepted StartStops from a stopped in-range clock start a generator and then stop it, with the teardown matching the generator kind |
| `ClockProperties.PowerOnReachable` | main.py:30-36 | the power-up state satisfies the reachability invariant |
| `ClockProperties.Reachable` | main.py:69-180 | the invariant of the states reached from power-up: frequency at most 9999; a generator exactly while running, the one a start picks for the frequency; and while running, the `pwm_clock` object that start left |
| `ClockProperties.StepKeepsReachable` | main.py:69-180 | every press keeps `Reachable` |
| `ClockProperties.RunKeepsReachable` | main.py:69-180 | any sequence of presses keeps the invariant |
| `ClockProperties.NoErrorAfterPowerOn` | main.py:69-180 | from power-up the frequency stays in 1..9999, so the 127 MHz checks never fire, and a stop's teardown matches the running generator |
| `ClockProperties.DebounceWindowFromPowerOn` | main.py:70-180 | in every state reached from power-up, an accepted press re-arms the 500 ms window for all buttons, unless it is a Pulse that raised |
| `ClockProperties.ShiftShiftShiftSetStop` | main.py:99-168 | from power-up, three Shifts give 1000 Hz, Set starts `Pwm(1000, 32512)`, and StartStop stops it with a PWM teardown |
| `ClockProperties.PulseAfterPwmStopRaises` | main.py:99-180 | from power-up: Shift to 10 Hz, then StartStop twice on PWM. A Pulse after that raises, emits nothing, and leaves `last_time` at the stop |
| `ClockProperties.PulseAfterTimerStopWorks` | main.py:135-179 | from power-up: StartStop twice on the 1 Hz software timer. A Pulse after that emits a 500,000 µs pulse and sets `last_time` |
| `ClockProperties.FiveHertzSoftTimer` | main.py:122-125 | at 5 Hz, with the plain pin in `pwm_clock`, Set starts `SoftTimer(5)` and a Pulse is 100,000 µs wide |

## Left out

- GPIO `Pin`, `PWM` and `Timer` construction, and the interrupt registration (main.py:43-60). These are hardware. The generator is only the abstract `Gen` value.
- The TM1637 display driver and the "Helo" greeting (main.py:63-67), and every `sleep`/`utime.sleep_us` delay (main.py:66, 80, 88, 104, 120, 133, 143, 155, 167, 177). These are hardware and timing. What the display is told to show is kept, in order, in `Reply.shown`.
- The onboard LED on/off calls (main.py:82, 130, 153, 165, 176, 179). They are output only and change no state the handler reads.
- The debug serial prints and the unconditional print at main.py:134. Serial I/O is not modelled.
- `non_pwm_clock` (main.py:182-186). It is a timer-interrupt callback that runs concurrently with the handler and only reads the frequency.
- The `while True: sleep(1)` entry loop (main.py:189-192). It is idle I/O.
- `utime.ticks_ms` wrap-around. Time is an unbounded integer, and the debounce test is the plain subtraction of main.py:71.
- `ClockModel.HalfPeriodUs`: the firmware computes `int(1_000_000 / f / 2)` in floating point; the model uses integer division. The two agree for every frequency the buttons can reach (at most 9999 Hz), but that agreement is argued, not proved.
- The `clock_multiplier` field (main.py:33) is never read; the handler uses the constant `DEFAULT_CLOCK_MULTIPLIER`, and so does the model.
- The `str(pin)` substring test that picks the branch. It is replaced by the `Button` enum, tested in the same order.
- `pwm_clock` is modelled only as the kind of object it holds (`Output`), not as the object. Other failures of calls into the `machine` module are not modelled. One is `clock_timer.deinit()` when no timer was ever started. `Reachable` proves that, from power-up, a running clock below 10 Hz always holds a software timer.
- The rotary-encoder/OLED firmware variant is not part of this model.
