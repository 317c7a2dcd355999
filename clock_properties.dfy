/** What the button handler promises: debounce, the error returns, each
    edit, start and stop, and the invariant that every state reached from
    power-up keeps. */
module ClockProperties {
  import opened ClockModel

  // ---------------------------------------------------------------------
  // Debounce and the timestamp

  /** A press inside the debounce window records its time in `newTime` and
      changes nothing else, `lastTime` included. */
  lemma DebounceRejects(c: Clock, b: Button, now: int)
    requires now - c.lastTime <= DEBOUNCE_DELAY
    ensures Step(c, b, now) == (c.(newTime := now), Quiet)
  {
  }

  /** The branches that return early are exactly the four "Err " returns:
      an over-limit Cycle or Shift in any state, and an over-limit Set or
      StartStop while stopped. */
  lemma ErrorIffOverLimit(c: Clock, b: Button, now: int)
    requires Accepted(c.lastTime, now)
    ensures Step(c, b, now).1 == ErrReply <==>
      Effective(c.frequency) > MAXIMUM_PWM_FREQUENCY &&
      (b == Cycle || b == Shift || ((b == Set || b == StartStop) && !c.running))
  {
  }

  /** The one press that raises: Pulse while stopped, when `pwm_clock`
      holds a PWM channel, which has no `on` method. It changes nothing but
      `newTime`. */
  lemma PulseRaisesIff(c: Clock, b: Button, now: int)
    requires Accepted(c.lastTime, now)
    ensures Step(c, b, now).1 == Raised <==> b == Pulse && !c.running && c.output == PwmOut
    ensures Step(c, b, now).1 == Raised ==> Step(c, b, now).0 == c.(newTime := now)
  {
  }

  /** An accepted press records `now` as the last accepted time exactly
      when it did not end in "Err " or raise; an error return leaves the
      frequency, the generator and the last accepted time as they were,
      and leaves `running` as it was except that StartStop has already
      set it. */
  lemma TimestampUnlessError(c: Clock, b: Button, now: int)
    requires Accepted(c.lastTime, now)
    ensures var (c', r) := Step(c, b, now);
      (c'.lastTime == now <==> r != ErrReply && r != Raised) &&
      c'.newTime == now &&
      (r == ErrReply ==>
         c'.frequency == c.frequency && c'.gen == c.gen && c'.lastTime == c.lastTime &&
         c'.output == c.output && c'.running == (c.running || b == StartStop))
  {
    ErrorIffOverLimit(c, b, now);
    PulseRaisesIff(c, b, now);
  }

  /** Once a press has been accepted and completed at `t1`, any press at
      most one window later is rejected, whichever button it is. */
  lemma DebounceWindowAfterPress(c: Clock, b1: Button, t1: int, b2: Button, t2: int)
    requires Accepted(c.lastTime, t1)
    requires Step(c, b1, t1).1 != ErrReply && Step(c, b1, t1).1 != Raised
    requires t2 - t1 <= DEBOUNCE_DELAY
    ensures var c1 := Step(c, b1, t1).0;
      Step(c1, b2, t2) == (c1.(newTime := t2), Quiet)
  {
    TimestampUnlessError(c, b1, t1);
  }

  /** After an "Err " return the window is not re-armed: a second press one
      millisecond later is processed again. */
  lemma DebounceNotRearmedByError()
    ensures var c := Clock(200_000_000, false, 0, 0, NoGen, PinOut);
      var (c1, r1) := Step(c, Cycle, 1000);
      r1 == ErrReply && Accepted(c1.lastTime, 1001) && Step(c1, Shift, 1001).1 == ErrReply
  {
  }

  // ---------------------------------------------------------------------
  // The frequency edits

  /** Reset while stopped restores the default frequency and leaves the
      clock stopped; while running it changes nothing but the timestamps. */
  lemma ResetEffect(c: Clock, now: int)
    requires Accepted(c.lastTime, now)
    ensures var (c', r) := Step(c, Reset, now);
      if c.running then c' == c.(newTime := now, lastTime := now) && r == Quiet
      else c' == c.(frequency := 1, newTime := now, lastTime := now) && !c'.running &&
           r.shown == [Text("Rst "), Number(1)]
  {
  }

  /** Cycle while stopped changes only the last decimal digit: it goes up
      by one, 9 wrapping round to 1, so the new last digit is never 0. */
  lemma CycleEffect(c: Clock, now: int)
    requires Accepted(c.lastTime, now) && !c.running
    requires Effective(c.frequency) <= MAXIMUM_PWM_FREQUENCY
    ensures var (c', r) := Step(c, Cycle, now);
      var d, d' := c.frequency % 10, c'.frequency % 10;
      c'.frequency / 10 == c.frequency / 10 &&
      (d <= 8 ==> d' == d + 1) && (d == 9 ==> d' == 1) && 1 <= d' <= 9 &&
      c' == c.(frequency := c'.frequency, newTime := now, lastTime := now) &&
      r.shown == [Number(c'.frequency)]
  {
  }

  /** Shift while stopped multiplies a frequency of at most 999 by ten and
      leaves a greater one as it is. */
  lemma ShiftEffect(c: Clock, now: int)
    requires Accepted(c.lastTime, now) && !c.running
    requires Effective(c.frequency) <= MAXIMUM_PWM_FREQUENCY
    ensures var (c', r) := Step(c, Shift, now);
      c'.frequency == (if c.frequency <= 999 then c.frequency * 10 else c.frequency) &&
      c' == c.(frequency := c'.frequency, newTime := now, lastTime := now) &&
      r.shown == [Number(c'.frequency)]
  {
  }

  /** The cap applies only above 999: 999 itself still shifts, and 50
      becomes 500. */
  lemma ShiftExamples()
    ensures ShiftDigits(999) == 9990 && ShiftDigits(1000) == 1000 && ShiftDigits(50) == 500
  {
  }

  /** The Cycle edit applied n times. */
  function CycleTimes(f: Hz, n: nat): Hz
    decreases n
  {
    if n == 0 then f else CycleTimes(CycleDigit(f), n - 1)
  }

  /** Up to nine Cycle edits of a value whose last digit is not 0 keep
      the other digits and advance the last digit one step at a time round
      1..9. */
  lemma {:induction false} CycleTimesDigit(f: Hz, n: nat)
    requires f % 10 != 0 && n <= 9
    ensures CycleTimes(f, n) / 10 == f / 10
    ensures var d := f % 10;
      CycleTimes(f, n) % 10 == if d + n <= 9 then d + n else d + n - 9
    decreases n
  {
    if n > 0 {
      CycleTimesDigit(CycleDigit(f), n - 1);
    }
  }

  /** Nine Cycle edits bring a frequency whose last digit is not 0 back to
      itself. */
  lemma NineCyclesRestore(f: Hz)
    requires f % 10 != 0
    ensures CycleTimes(f, 9) == f
  {
    CycleTimesDigit(f, 9);
  }

  /** Presses `events` follow one another, starting after `t`, each more
      than one debounce window after the one before. */
  predicate Spaced(t: int, events: seq<Event>) {
    (events != [] ==> Accepted(t, events[0].at)) &&
    forall i :: 1 <= i < |events| ==> Accepted(events[i - 1].at, events[i].at)
  }

  /** A run of accepted Cycle presses on a stopped clock with at most four
      digits applies the Cycle edit once per press and leaves it stopped. */
  lemma {:induction false} CyclePressesWhileStopped(c: Clock, events: seq<Event>)
    requires !c.running && c.frequency <= MAX_EDITABLE
    requires forall i :: 0 <= i < |events| ==> events[i].button == Cycle
    requires Spaced(c.lastTime, events)
    ensures var c' := Run(c, events);
      c'.frequency == CycleTimes(c.frequency, |events|) && c'.frequency <= MAX_EDITABLE &&
      !c'.running && c'.gen == c.gen && c'.output == c.output
    decreases |events|
  {
    if events != [] {
      var f: nat := c.frequency;
      assert f / 10 <= 999;
      var c1 := Step(c, Cycle, events[0].at).0;
      assert c1 == c.(frequency := CycleDigit(c.frequency), lastTime := events[0].at, newTime := events[0].at);
      var rest := events[1..];
      assert Spaced(c1.lastTime, rest) by {
        if rest != [] {
          assert rest[0] == events[1];
        }
        forall i | 1 <= i < |rest|
          ensures Accepted(rest[i - 1].at, rest[i].at)
        {
          assert rest[i] == events[i + 1] && rest[i - 1] == events[i];
        }
      }
      CyclePressesWhileStopped(c1, rest);
    }
  }

  /** Nine accepted Cycle presses on a stopped clock whose frequency has at
      most four digits, the last not 0, give back that frequency. */
  lemma NineCyclePressesRestore(c: Clock, events: seq<Event>)
    requires !c.running && c.frequency <= MAX_EDITABLE && c.frequency % 10 != 0
    requires |events| == 9 && forall i :: 0 <= i < 9 ==> events[i].button == Cycle
    requires Spaced(c.lastTime, events)
    ensures Run(c, events).frequency == c.frequency && !Run(c, events).running
  {
    CyclePressesWhileStopped(c, events);
    NineCyclesRestore(c.frequency);
  }

  /** No press changes the frequency while the clock is running. */
  lemma FrequencyFrozenWhileRunning(c: Clock, b: Button, now: int)
    requires c.running
    ensures Step(c, b, now).0.frequency == c.frequency
  {
  }

  // ---------------------------------------------------------------------
  // Start, stop and pulse

  /** Set, or StartStop while stopped, within the limit: the clock runs on
      a software timer below 10 Hz and on PWM at duty 32512 otherwise. */
  lemma StartEffect(c: Clock, b: Button, now: int)
    requires b == Set || b == StartStop
    requires Accepted(c.lastTime, now) && !c.running
    requires Effective(c.frequency) <= MAXIMUM_PWM_FREQUENCY
    ensures var (c', r) := Step(c, b, now);
      var f := Effective(c.frequency);
      c'.running && c'.frequency == c.frequency && c'.lastTime == now &&
      c'.gen == (if f < 10 then SoftTimer(f) else Pwm(f, 32512)) &&
      r.shown == [Text("Run ")]
  {
  }

  /** Over the limit the two start buttons differ: Set checks before it
      starts and stays stopped, StartStop marks the clock running first and
      is left running without a new generator. */
  lemma StartOverLimit(c: Clock, now: int)
    requires Accepted(c.lastTime, now) && !c.running
    requires Effective(c.frequency) > MAXIMUM_PWM_FREQUENCY
    ensures Step(c, Set, now) == (c.(newTime := now), ErrReply)
    ensures Step(c, StartStop, now) == (c.(newTime := now, running := true), ErrReply)
  {
  }

  /** Set and Pulse while running, and Cycle and Shift while running within
      the limit, change nothing but the timestamps. */
  lemma BusyButtonsIgnored(c: Clock, b: Button, now: int)
    requires b == Set || b == Pulse ||
      ((b == Cycle || b == Shift) && Effective(c.frequency) <= MAXIMUM_PWM_FREQUENCY)
    requires Accepted(c.lastTime, now) && c.running
    ensures Step(c, b, now) == (c.(newTime := now, lastTime := now), Quiet)
  {
  }

  /** Pulse while stopped on the plain output pin emits one pulse half a
      period wide and changes nothing but the timestamps; on a PWM channel
      it raises, and changes nothing but `newTime`. */
  lemma PulseEffect(c: Clock, now: int)
    requires Accepted(c.lastTime, now) && !c.running
    ensures var (c', r) := Step(c, Pulse, now);
      if c.output == PinOut then
        c' == c.(newTime := now, lastTime := now) && r.Reply? && r.pulseUs.Some? && r.shown == [] &&
        2 * r.pulseUs.value * c.frequency <= 1_000_000 < 2 * (r.pulseUs.value + 1) * c.frequency
      else
        c' == c.(newTime := now) && r == Raised
  {
  }

  /** StartStop while running stops the clock and releases the generator,
      tearing down by the frequency alone. */
  lemma StopEffect(c: Clock, now: int)
    requires Accepted(c.lastTime, now) && c.running
    ensures var (c', r) := Step(c, StartStop, now);
      !c'.running && c'.gen == NoGen && c'.frequency == c.frequency &&
      c'.output == (if c.frequency < 10 then c.output else PwmOut) &&
      r.released == Some(if c.frequency < 10 then TimerDeinit else PwmDeinit) &&
      r.shown == [Text("Stop"), Number(c.frequency)]
  {
  }

  /** Two accepted StartStop presses from a stopped clock within the limit
      start the right generator, then stop it with the matching teardown. */
  lemma StartStopTwice(c: Clock, t1: int, t2: int)
    requires !c.running && Effective(c.frequency) <= MAXIMUM_PWM_FREQUENCY
    requires Accepted(c.lastTime, t1) && Accepted(t1, t2)
    ensures var (c1, r1) := Step(c, StartStop, t1);
      var (c2, r2) := Step(c1, StartStop, t2);
      c1.running && c1.gen != NoGen &&
      !c2.running && c2.gen == NoGen && c2.frequency == c.frequency &&
      r2.released == Some(if c1.gen.SoftTimer? then TimerDeinit else PwmDeinit)
  {
  }

  // ---------------------------------------------------------------------
  // The states reached from power-up

  /** The largest frequency the edits can reach from the default. */
  const MAX_EDITABLE: nat := 9999

  /** Every state reached from power-up: the frequency has at most four
      digits, and a generator is held exactly while running, namely the one
      a start picks for the current frequency, with `pwm_clock` holding the
      object that start left there. */
  predicate Reachable(c: Clock) {
    c.frequency <= MAX_EDITABLE &&
    (c.running ==> c.gen == StartGen(Effective(c.frequency)) &&
                   c.output == StartOutput(Effective(c.frequency))) &&
    (!c.running ==> c.gen == NoGen)
  }

  lemma PowerOnReachable()
    ensures Reachable(PowerOn)
  {
  }

  /** Every press keeps the invariant. */
  lemma StepKeepsReachable(c: Clock, b: Button, now: int)
    requires Reachable(c)
    ensures Reachable(Step(c, b, now).0)
  {
    var f: nat := c.frequency;
    if b == Cycle {
      assert f / 10 <= 999;
      assert CycleDigit(f) <= 999 * 10 + 9;
    }
  }

  lemma {:induction false} RunKeepsReachable(c: Clock, events: seq<Event>)
    requires Reachable(c)
    ensures Reachable(Run(c, events))
    decreases |events|
  {
    if events != [] {
      StepKeepsReachable(c, events[0].button, events[0].at);
      RunKeepsReachable(Step(c, events[0].button, events[0].at).0, events[1..]);
    }
  }

  /** From power-up, whatever the presses, the frequency stays within
      1..9999, so the limit checks never fire, no press ends in "Err ",
      and a stop's teardown matches the generator that was started. */
  lemma NoErrorAfterPowerOn(events: seq<Event>, b: Button, now: int)
    ensures var c := Run(PowerOn, events);
      1 <= c.frequency <= 9999 &&
      Effective(c.frequency) <= MAXIMUM_PWM_FREQUENCY &&
      Step(c, b, now).1 != ErrReply &&
      (c.running && b == StartStop && Accepted(c.lastTime, now) ==>
         Step(c, b, now).1.released == Some(if c.gen.SoftTimer? then TimerDeinit else PwmDeinit))
  {
    PowerOnReachable();
    RunKeepsReachable(PowerOn, events);
    var c := Run(PowerOn, events);
    if Accepted(c.lastTime, now) {
      ErrorIffOverLimit(c, b, now);
    }
  }

  /** In a state reached from power-up, an accepted press re-arms the
      debounce window, unless it is a Pulse that raised. */
  lemma DebounceWindowFromPowerOn(events: seq<Event>, b1: Button, t1: int, b2: Button, t2: int)
    requires Accepted(Run(PowerOn, events).lastTime, t1)
    requires t2 - t1 <= DEBOUNCE_DELAY
    ensures var (c1, r1) := Step(Run(PowerOn, events), b1, t1);
      (r1 == Raised ==> b1 == Pulse) &&
      (r1 != Raised ==> Step(c1, b2, t2) == (c1.(newTime := t2), Quiet))
  {
    var c := Run(PowerOn, events);
    NoErrorAfterPowerOn(events, b1, t1);
    PulseRaisesIff(c, b1, t1);
    if Step(c, b1, t1).1 != Raised {
      DebounceWindowAfterPress(c, b1, t1, b2, t2);
    }
  }

  // ---------------------------------------------------------------------
  // Scenarios

  /** From power-up: three Shifts give 1000 Hz, Set starts PWM at 1000 Hz,
      StartStop stops it and releases the PWM channel. */
  lemma ShiftShiftShiftSetStop()
    ensures var c3 := Run(PowerOn, [Event(Shift, 1000), Event(Shift, 2000), Event(Shift, 3000)]);
      var (c4, r4) := Step(c3, Set, 4000);
      var (c5, r5) := Step(c4, StartStop, 5000);
      c3.frequency == 1000 && !c3.running &&
      c4.running && c4.gen == Pwm(1000, 32512) &&
      !c5.running && c5.gen == NoGen && r5.released == Some(PwmDeinit)
  {
  }

  /** From power-up: Shift to 10 Hz, start and stop on PWM, and a Pulse
      then raises on the PWM channel left in `pwm_clock`, emitting nothing
      and leaving the last accepted time at the stop. */
  lemma PulseAfterPwmStopRaises()
    ensures var c := Run(PowerOn, [Event(Shift, 1000), Event(StartStop, 2000), Event(StartStop, 3000)]);
      var (c', r) := Step(c, Pulse, 4000);
      c.frequency == 10 && !c.running && c.output == PwmOut &&
      r == Raised && c'.lastTime == 3000
  {
  }

  /** After a software-timer run has been stopped, Pulse still works. */
  lemma PulseAfterTimerStopWorks()
    ensures var c := Run(PowerOn, [Event(StartStop, 1000), Event(StartStop, 2000)]);
      var (c', r) := Step(c, Pulse, 3000);
      !c.running && c.output == PinOut &&
      r == Reply([], Some(500_000), None) && c'.lastTime == 3000
  {
  }

  /** At 5 Hz, Set starts a 5 Hz software timer; a pulse at 5 Hz is
      100 ms wide. */
  lemma FiveHertzSoftTimer(c: Clock, now: int)
    requires c.frequency == 5 && !c.running && c.output == PinOut && Accepted(c.lastTime, now)
    ensures Step(c, Set, now).0.gen == SoftTimer(5)
    ensures Step(c, Pulse, now).1.pulseUs == Some(100_000)
  {
  }
}
