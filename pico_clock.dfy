/** The clock object itself: the fields the button handler updates in
    place, and the handler as an imperative method with early returns. */
module ClockDevice {
  import opened ClockModel

  class PicoClock {
    var frequency: Hz
    var running: bool
    var lastTime: int
    var newTime: int
    var gen: Gen
    var output: Output

    /** The fields as a value of the model. */
    function State(): Clock
      reads this
    {
      Clock(frequency, running, lastTime, newTime, gen, output)
    }

    /** The state at power-up, before any button is pressed. */
    constructor ()
      ensures State() == PowerOn
    {
      frequency := DEFAULT_CLOCK_FREQUENCY;
      running := false;
      lastTime := 0;
      newTime := 0;
      gen := NoGen;
      output := PinOut;
    }

    /** Starts the generator for `f`: a periodic software timer on the
        plain output pin below SOFT_TIMER_LIMIT, hardware PWM at PWM_DUTY
        otherwise. */
    method StartGenerator(f: nat)
      modifies this
      ensures gen == StartGen(f) && output == StartOutput(f)
      ensures frequency == old(frequency) && running == old(running)
      ensures lastTime == old(lastTime) && newTime == old(newTime)
    {
      if f < SOFT_TIMER_LIMIT {
        output := PinOut;
        gen := SoftTimer(f);
      } else {
        output := PwmOut;
        gen := Pwm(f, PWM_DUTY);
      }
    }

    /** One call of the button interrupt handler for button `b` at time
        `now` (milliseconds). */
    method ButtonPressed(b: Button, now: int) returns (reply: Reply)
      modifies this
      ensures (State(), reply) == Step(old(State()), b, now)
    {
      newTime := now;
      reply := Quiet;
      if newTime - lastTime > DEBOUNCE_DELAY {
        if b == Reset {
          if !running {
            running := false;
            frequency := DEFAULT_CLOCK_FREQUENCY;
            reply := Reply([Text("Rst "), Number(frequency)], None, None);
          }
        } else if b == Cycle {
          var f := frequency * DEFAULT_CLOCK_MULTIPLIER;
          if f > MAXIMUM_PWM_FREQUENCY {
            reply := ErrReply;
            return;
          }
          if !running {
            var digit := frequency % 10 + 1;
            if digit >= 10 {
              digit := 1;
            }
            frequency := (frequency / 10) * 10 + digit;
            reply := Reply([Number(frequency)], None, None);
          }
        } else if b == Shift {
          var f := frequency * DEFAULT_CLOCK_MULTIPLIER;
          if f > MAXIMUM_PWM_FREQUENCY {
            reply := ErrReply;
            return;
          }
          if !running {
            if !(frequency > SHIFT_LIMIT) {
              frequency := frequency * 10;
            }
            reply := Reply([Number(frequency)], None, None);
          }
        } else if b == Set {
          if !running {
            var f := frequency * DEFAULT_CLOCK_MULTIPLIER;
            if f > MAXIMUM_PWM_FREQUENCY {
              reply := ErrReply;
              return;
            }
            StartGenerator(f);
            running := true;
            reply := Reply([Text("Run ")], None, None);
          }
        } else if b == StartStop {
          if !running {
            running := true;
            var f := frequency * DEFAULT_CLOCK_MULTIPLIER;
            if f > MAXIMUM_PWM_FREQUENCY {
              reply := ErrReply;
              return;
            }
            StartGenerator(f);
            reply := Reply([Text("Run ")], None, None);
          } else {
            running := false;
            var teardown := TeardownFor(frequency);
            if teardown == PwmDeinit {
              output := PwmOut;
            }
            gen := NoGen;
            reply := Reply([Text("Stop"), Number(frequency)], None, Some(teardown));
          }
        } else if b == Pulse {
          if !running {
            var halfPeriodUs := HalfPeriodUs(frequency);
            if output == PwmOut {
              reply := Raised;
              return;
            }
            reply := Reply([], Some(halfPeriodUs), None);
          }
        }
        lastTime := newTime;
      }
    }
  }
}
