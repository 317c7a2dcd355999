/** The button-press state machine of the Pico Clock signal generator, as
    values: the clock's state, the six logical buttons, and `Step`, the
    effect of one call of the button interrupt handler. */
module ClockModel {
  import opened Decimal

  /** Debounce window in milliseconds. */
  const DEBOUNCE_DELAY: int := 500
  const DEFAULT_CLOCK_FREQUENCY: Hz := 1
  const DEFAULT_CLOCK_MULTIPLIER: nat := 1
  const MAXIMUM_PWM_FREQUENCY: nat := 127_000_000
  /** Below this effective frequency the output is toggled by a software timer. */
  const SOFT_TIMER_LIMIT: nat := 10
  /** A frequency above this is not shifted by another decimal place. */
  const SHIFT_LIMIT: nat := 999
  /** The 16-bit PWM duty value the hardware generator is started with. */
  const PWM_DUTY: nat := 32512

  /** A clock frequency in Hz. It starts at 1 and no edit can make it 0. */
  type Hz = n: nat | 1 <= n witness 1

  /** The six buttons, in the order the handler tests them. */
  datatype Button = Reset | Cycle | Shift | Set | StartStop | Pulse

  /** The generator driving the output pin. */
  datatype Gen = NoGen | SoftTimer(freq: nat) | Pwm(freq: nat, duty: nat)

  /** The object held in `pwm_clock`: the plain output pin, or a PWM
      channel on it. A PWM object has no `on`/`off` methods. */
  datatype Output = PinOut | PwmOut

  /** How a stop tears the generator down. */
  datatype Teardown = TimerDeinit | PwmDeinit

  datatype Option<T> = None | Some(value: T)

  /** What the 7-segment display is told to show, in order. */
  datatype Shown = Text(text: string) | Number(value: nat)

  /** The observable effect of one press: the display messages, the width
      of a single pulse in microseconds, and the teardown a stop performed;
      or `Raised`, an exception that left the handler. */
  datatype Reply = Reply(shown: seq<Shown>, pulseUs: Option<nat>, released: Option<Teardown>) | Raised

  /** The handler's fields: `clock_frequency`, `clock_running`, `last_time`,
      `new_time`, the generator held in `clock_timer`/`pwm_clock`, and the
      kind of object `pwm_clock` holds. */
  datatype Clock = Clock(frequency: Hz, running: bool, lastTime: int, newTime: int, gen: Gen, output: Output)

  /** The state after construction. */
  const PowerOn: Clock := Clock(DEFAULT_CLOCK_FREQUENCY, false, 0, 0, NoGen, PinOut)

  const Quiet: Reply := Reply([], None, None)
  const ErrReply: Reply := Reply([Text("Err ")], None, None)

  /** What one press did: `Done` reaches the timestamp update at the end of
      the handler, `Aborted` left it through an early return. */
  datatype Handled = Done(clock: Clock, reply: Reply) | Aborted(clock: Clock, reply: Reply)

  /** The frequency the limit checks and the generators use. */
  function Effective(f: Hz): nat {
    f * DEFAULT_CLOCK_MULTIPLIER
  }

  /** The debounce test: strictly more than the window since the last
      accepted press. */
  predicate Accepted(lastTime: int, now: int) {
    now - lastTime > DEBOUNCE_DELAY
  }

  /** The last digit after a Cycle press: one more, with 9 wrapping to 1. */
  function NextDigit(d: nat): (e: nat)
    requires d < 10
    ensures 1 <= e <= 9
    ensures d < 9 ==> e == d + 1
    ensures d == 9 ==> e == 1
  {
    if d + 1 >= 10 then 1 else d + 1
  }

  /** The Cycle edit on numbers: replace the last decimal digit of `f` by
      its successor. */
  function CycleDigit(f: Hz): (r: Hz)
    ensures r / 10 == f / 10
    ensures r % 10 == NextDigit(f % 10)
  {
    (f / 10) * 10 + NextDigit(f % 10)
  }

  /** The Cycle edit as the source computes it, on the decimal text:
      take the last character, bump it, and glue it back on. */
  function CycleDigitText(f: Hz): nat {
    var s := ToDecimal(f);
    var digit := ParseDecimal([s[|s| - 1]]) + 1;
    var digit' := if digit >= 10 then 1 else digit;
    ParseDecimal(s[..|s| - 1] + ToDecimal(digit'))
  }

  /** `int(str(f)[-1])` is the last decimal digit of `f`. */
  lemma LastDigitText(f: nat)
    ensures var s := ToDecimal(f);
      IsDigits([s[|s| - 1]]) && ParseDecimal([s[|s| - 1]]) == f % 10
  {
    var c := ToDecimal(f)[|ToDecimal(f)| - 1];
    assert c == DigitChar(f % 10);
    assert [c][..0] == [];
  }

  /** `int(str(f)[:-1] + str(d))` is `(f / 10) * 10 + d` for a digit `d`
      in 1..9. */
  lemma ReplaceLastDigitText(f: nat, d: nat)
    requires 1 <= d <= 9
    ensures var s := ToDecimal(f);
      IsDigits(s[..|s| - 1] + ToDecimal(d)) &&
      ParseDecimal(s[..|s| - 1] + ToDecimal(d)) == (f / 10) * 10 + d
  {
    var s := ToDecimal(f);
    var p := s[..|s| - 1];
    DropLastDigit(f);
    assert ToDecimal(d) == [DigitChar(d)];
    ParseAppendDigit(p, DigitChar(d));
    if f >= 10 {
      ParseToDecimal(f / 10);
    }
  }

  /** The text edit and the arithmetic edit agree on every frequency. */
  lemma CycleDigitTextAgrees(f: Hz)
    ensures CycleDigitText(f) == CycleDigit(f)
  {
    LastDigitText(f);
    ReplaceLastDigitText(f, NextDigit(f % 10));
  }

  /** The Shift edit: one more decimal place, unless above SHIFT_LIMIT.
      It never leaves four digits. */
  function ShiftDigits(f: Hz): (r: Hz)
    ensures f <= SHIFT_LIMIT ==> r == 10 * f
    ensures f > SHIFT_LIMIT ==> r == f
    ensures f <= 9999 ==> r <= 9999
  {
    if f > SHIFT_LIMIT then f else f * 10
  }

  /** The generator a start acquires for an effective frequency: always
      one, at that frequency, a software timer exactly below
      SOFT_TIMER_LIMIT, and otherwise PWM at PWM_DUTY. */
  function StartGen(f: nat): (g: Gen)
    ensures g != NoGen && g.freq == f
    ensures g.SoftTimer? <==> f < SOFT_TIMER_LIMIT
    ensures g.Pwm? ==> g.duty == PWM_DUTY
  {
    if f < SOFT_TIMER_LIMIT then SoftTimer(f) else Pwm(f, PWM_DUTY)
  }

  /** What a start leaves in `pwm_clock`: the plain pin for a software
      timer, a PWM channel otherwise. */
  function StartOutput(f: nat): (o: Output)
    ensures o == PinOut <==> StartGen(f).SoftTimer?
  {
    if f < SOFT_TIMER_LIMIT then PinOut else PwmOut
  }

  /** The teardown a stop performs, chosen by the frequency alone (without
      the multiplier). */
  function TeardownFor(f: Hz): (t: Teardown)
    ensures t == TimerDeinit <==> f < SOFT_TIMER_LIMIT
  {
    if f < SOFT_TIMER_LIMIT then TimerDeinit else PwmDeinit
  }

  /** Half a period in whole microseconds, the width of one Pulse: the
      largest whole number of microseconds that fits twice into a period. */
  function HalfPeriodUs(f: Hz): (h: nat)
    ensures 2 * h * f <= 1_000_000 < 2 * (h + 1) * f
  {
    HalfPeriodBounds(f);
    1_000_000 / f / 2
  }

  lemma HalfPeriodBounds(f: Hz)
    ensures var h := 1_000_000 / f / 2;
      2 * h * f <= 1_000_000 < 2 * (h + 1) * f
  {
    var q, r := 1_000_000 / f, 1_000_000 % f;
    assert 1_000_000 == q * f + r && r < f;
    var h, e := q / 2, q % 2;
    assert q == 2 * h + e && e <= 1;
    Distribute(2 * h, e, f);
    AtMostOnce(e, f);
    Distribute(2 * h, 2, f);
    assert 2 * (h + 1) == 2 * h + 2;
  }

  lemma Distribute(a: nat, b: nat, k: nat)
    ensures (a + b) * k == a * k + b * k
  {
  }

  lemma AtMostOnce(e: nat, k: nat)
    requires e <= 1
    ensures e * k <= k
  {
  }

  /** The branch of the handler for button `b`, on a press that passed the
      debounce test. No branch touches the timestamps, none changes the
      frequency of a running clock, and an early return changes nothing
      but the running flag of a StartStop. */
  function Dispatch(c: Clock, b: Button): (h: Handled)
    ensures h.clock.lastTime == c.lastTime && h.clock.newTime == c.newTime
    ensures c.running ==> h.clock.frequency == c.frequency
    ensures h.Aborted? ==> h.clock == c.(running := h.clock.running)
    ensures h.Aborted? && h.clock.running != c.running ==> b == StartStop
  {
    match b
    case Reset =>
      if c.running then Done(c, Quiet)
      else Done(c.(running := false, frequency := DEFAULT_CLOCK_FREQUENCY),
                Reply([Text("Rst "), Number(DEFAULT_CLOCK_FREQUENCY)], None, None))
    case Cycle =>
      if Effective(c.frequency) > MAXIMUM_PWM_FREQUENCY then Aborted(c, ErrReply)
      else if c.running then Done(c, Quiet)
      else
        var f := CycleDigit(c.frequency);
        Done(c.(frequency := f), Reply([Number(f)], None, None))
    case Shift =>
      if Effective(c.frequency) > MAXIMUM_PWM_FREQUENCY then Aborted(c, ErrReply)
      else if c.running then Done(c, Quiet)
      else
        var f := ShiftDigits(c.frequency);
        Done(c.(frequency := f), Reply([Number(f)], None, None))
    case Set =>
      if c.running then Done(c, Quiet)
      else if Effective(c.frequency) > MAXIMUM_PWM_FREQUENCY then Aborted(c, ErrReply)
      else
        var f := Effective(c.frequency);
        Done(c.(gen := StartGen(f), output := StartOutput(f), running := true),
             Reply([Text("Run ")], None, None))
    case StartStop =>
      if !c.running then
        if Effective(c.frequency) > MAXIMUM_PWM_FREQUENCY then Aborted(c.(running := true), ErrReply)
        else
          var f := Effective(c.frequency);
          Done(c.(running := true, gen := StartGen(f), output := StartOutput(f)),
               Reply([Text("Run ")], None, None))
      else
        var t := TeardownFor(c.frequency);
        Done(c.(running := false, gen := NoGen, output := if t == TimerDeinit then c.output else PwmOut),
             Reply([Text("Stop"), Number(c.frequency)], None, Some(t)))
    case Pulse =>
      if c.running then Done(c, Quiet)
      else if c.output == PwmOut then Aborted(c, Raised)
      else Done(c, Reply([], Some(HalfPeriodUs(c.frequency)), None))
  }

  /** One call of the handler at time `now`: the timestamp is always
      recorded in `newTime`; a press inside the debounce window does
      nothing else; an accepted press runs its branch and, unless the
      branch returned early, records `now` as the last accepted time. */
  function Step(c: Clock, b: Button, now: int): (r: (Clock, Reply))
    ensures r.0.newTime == now
    ensures r.0.lastTime == now || r.0.lastTime == c.lastTime
    ensures !Accepted(c.lastTime, now) ==> r == (c.(newTime := now), Quiet)
  {
    var c1 := c.(newTime := now);
    if !Accepted(c.lastTime, now) then (c1, Quiet)
    else
      match Dispatch(c1, b)
      case Done(c2, r) => (c2.(lastTime := now), r)
      case Aborted(c2, r) => (c2, r)
  }

  /** A press of a button at a time. */
  datatype Event = Event(button: Button, at: int)

  /** The state after a sequence of presses, handled one after another;
      every press records its time, so `newTime` ends at the last one. */
  function Run(c: Clock, events: seq<Event>): (c': Clock)
    ensures events != [] ==> c'.newTime == events[|events| - 1].at
    decreases |events|
  {
    if events == [] then c
    else Run(Step(c, events[0].button, events[0].at).0, events[1..])
  }
}
