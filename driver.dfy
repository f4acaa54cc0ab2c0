/** The two-pin direction driver of the paw motor and its two active-low
    limit switches (driver.py).  The GPIO output side is modelled as the
    two pin levels plus the ordered log of every `GPIO.output` call; the GPIO
    input side is an injected schedule of levels (LimitInputs). */
module Driver {
  import opened Outcomes

  // Default pins.
  const FRONT_LIMIT_SWITCH_PIN: string := "P8_12"
  const REAR_LIMIT_SWITCH_PIN: string := "P8_10"
  const MOTOR_IN1_PIN: string := "P8_7"  // drives backward
  const MOTOR_IN2_PIN: string := "P8_9"  // drives forward

  /** `MotorDriver.State`; Brake is the source's BREAK (both inputs high). */
  datatype State = Stop | Forward | Backward | Brake

  datatype Pin = In1 | In2

  /** One `GPIO.output(pin, level)` call; high is GPIO.HIGH. */
  datatype Write = Write(pin: Pin, high: bool)

  /** The levels of the two motor input pins (true is HIGH). */
  datatype Levels = Levels(in1: bool, in2: bool)

  /** The output calls `set_state(s)` issues, in the order it issues them. */
  function Writes(s: State): seq<Write>
  {
    match s
    case Forward => [Write(In1, false), Write(In2, true)]
    case Backward => [Write(In2, false), Write(In1, true)]
    case Brake => [Write(In2, true), Write(In1, true)]
    case Stop => [Write(In2, false), Write(In1, false)]
  }

  function Put(l: Levels, w: Write): Levels
  {
    if w.pin == In1 then l.(in1 := w.high) else l.(in2 := w.high)
  }

  /** The pin levels after issuing ws, one call after the other. */
  function Apply(l: Levels, ws: seq<Write>): Levels
    decreases |ws|
  {
    if ws == [] then l else Apply(Put(l, ws[0]), ws[1..])
  }

  /** What a pair of input levels commands the bridge to do: both low
      coasts, IN2 alone drives forward, IN1 alone drives backward, both
      high brakes. */
  function Meaning(l: Levels): State
  {
    if !l.in1 && !l.in2 then Stop
    else if !l.in1 && l.in2 then Forward
    else if l.in1 && !l.in2 then Backward
    else Brake
  }

  // ---------------------------------------------------------------------
  // Properties of the truth table and of the order of the writes

  /** Unfolding Apply on a two-call sequence and on its prefixes. */
  lemma ApplyTwo(l: Levels, ws: seq<Write>)
    requires |ws| == 2
    ensures Apply(l, ws) == Put(Put(l, ws[0]), ws[1])
    ensures Apply(l, ws[..1]) == Put(l, ws[0])
    ensures Apply(l, ws[..0]) == l
    ensures Apply(l, ws[..2]) == Apply(l, ws)
  {
    assert ws[1..][1..] == [];
    assert Apply(Put(Put(l, ws[0]), ws[1]), ws[1..][1..]) == Put(Put(l, ws[0]), ws[1]);
    assert ws[..1][1..] == [];
    assert ws[..2] == ws;
  }

  /** Whatever the pins were, after `set_state(s)` they command exactly s,
      and s alone determines them. */
  lemma SetStateEncodes(l: Levels, l': Levels, s: State)
    ensures Meaning(Apply(l, Writes(s))) == s
    ensures Apply(l, Writes(s)) == Apply(l', Writes(s))
  {
    var ws := Writes(s);
    ApplyTwo(l, ws);
    ApplyTwo(l', ws);
  }

  /** `set_state(s)` a second time leaves the pins where the first left them. */
  lemma SetStateIdempotent(l: Levels, s: State)
    ensures Apply(Apply(l, Writes(s)), Writes(s)) == Apply(l, Writes(s))
  {
    SetStateEncodes(Apply(l, Writes(s)), l, s);
  }

  /** Distinct states drive distinct pin levels. */
  lemma SetStateInjective(l: Levels, s: State, t: State)
    requires Apply(l, Writes(s)) == Apply(l, Writes(t))
    ensures s == t
  {
    SetStateEncodes(l, l, s);
    SetStateEncodes(l, l, t);
  }

  /** Unless Brake is asked for, no intermediate pin state of `set_state`
      ever commands Brake when the pins did not already. */
  lemma NoTransientBrake(l: Levels, s: State, k: nat)
    requires Meaning(l) != Brake && s != Brake && k <= 2
    ensures Meaning(Apply(l, Writes(s)[..k])) != Brake
  {
    var ws := Writes(s);
    ApplyTwo(l, ws);
  }

  /** Reversing between Forward and Backward first lowers the driven pin,
      so the bridge coasts before it drives the other way. */
  lemma ReversalPassesThroughStop(l: Levels, s: State, t: State)
    requires Meaning(l) == s
    requires (s == Forward && t == Backward) || (s == Backward && t == Forward)
    ensures Meaning(Apply(l, Writes(t)[..1])) == Stop
  {
    var ws := Writes(t);
    ApplyTwo(l, ws);
  }

  // ---------------------------------------------------------------------
  // MotorDriver

  datatype MotorConfig = MotorConfig(motorIN1Pin: Option<string>, motorIN2Pin: Option<string>)

  class MotorDriver {
    const in1Pin: string
    const in2Pin: string
    var state: State
    var in1: bool
    var in2: bool
    /** Every GPIO.output call issued so far, oldest first. */
    var outputs: seq<Write>

    /** The stored state is what the pins command. */
    ghost predicate Valid()
      reads this
    {
      Meaning(Levels(in1, in2)) == state
    }

    function Pins(): Levels
      reads this
    {
      Levels(in1, in2)
    }

    /** `__init__` and `_gpio_setup`: the pins come from the configuration
        or the defaults, and setup ends with `stop()`. */
    constructor (config: MotorConfig)
      ensures Valid()
      ensures in1Pin == config.motorIN1Pin.GetOr(MOTOR_IN1_PIN)
      ensures in2Pin == config.motorIN2Pin.GetOr(MOTOR_IN2_PIN)
      ensures state == State.Stop && !in1 && !in2
      ensures outputs == Writes(State.Stop)
    {
      in1Pin := config.motorIN1Pin.GetOr(MOTOR_IN1_PIN);
      in2Pin := config.motorIN2Pin.GetOr(MOTOR_IN2_PIN);
      state := State.Stop;
      outputs := [];
      new;
      GpioSetup();
      assert outputs == [] + Writes(State.Stop);
    }

    method GpioSetup()
      modifies this
      ensures Valid() && state == State.Stop && !in1 && !in2
      ensures outputs == old(outputs) + Writes(State.Stop)
    {
      Stop();
    }

    /** One `GPIO.output` call. */
    method Output(pin: Pin, high: bool)
      modifies this
      ensures Pins() == Put(old(Pins()), Write(pin, high))
      ensures outputs == old(outputs) + [Write(pin, high)]
      ensures state == old(state)
    {
      if pin == In1 {
        in1 := high;
      } else {
        in2 := high;
      }
      outputs := outputs + [Write(pin, high)];
    }

    /** `set_state`: drive the pins of s in the source's order and record s. */
    method SetState(s: State)
      modifies this
      ensures Valid() && state == s
      ensures Pins() == Apply(old(Pins()), Writes(s))
      ensures outputs == old(outputs) + Writes(s)
    {
      ApplyTwo(Pins(), Writes(s));
      SetStateEncodes(Pins(), Pins(), s);
      if s == State.Forward {
        Output(In1, false);
        Output(In2, true);
        state := State.Forward;
      } else if s == State.Backward {
        Output(In2, false);
        Output(In1, true);
        state := State.Backward;
      } else if s == State.Brake {
        Output(In2, true);
        Output(In1, true);
        state := State.Brake;
      } else {
        Output(In2, false);
        Output(In1, false);
        state := State.Stop;
      }
    }

    method Forward()
      modifies this
      ensures Valid() && state == State.Forward && !in1 && in2
      ensures outputs == old(outputs) + Writes(State.Forward)
    {
      SetState(State.Forward);
      ApplyTwo(old(Pins()), Writes(State.Forward));
    }

    method Backward()
      modifies this
      ensures Valid() && state == State.Backward && in1 && !in2
      ensures outputs == old(outputs) + Writes(State.Backward)
    {
      SetState(State.Backward);
      ApplyTwo(old(Pins()), Writes(State.Backward));
    }

    method Stop()
      modifies this
      ensures Valid() && state == State.Stop && !in1 && !in2
      ensures outputs == old(outputs) + Writes(State.Stop)
    {
      SetState(State.Stop);
      ApplyTwo(old(Pins()), Writes(State.Stop));
    }

    /** `get_state`: the state recorded by the latest `set_state`. */
    method GetState() returns (s: State)
      requires Valid()
      ensures s == state && Meaning(Pins()) == s
    {
      s := state;
    }
  }

  // ---------------------------------------------------------------------
  // Limit switches

  datatype Switch = FrontSwitch | RearSwitch

  /** The GPIO input side: the level each switch input shows at the t-th
      read, counting reads of either switch.  The read counter is how the
      model lets the world move on between two samples. */
  class LimitInputs {
    const front: nat -> bool
    const rear: nat -> bool
    var now: nat

    constructor (front: nat -> bool, rear: nat -> bool)
      ensures this.front == front && this.rear == rear && now == 0
    {
      this.front := front;
      this.rear := rear;
      now := 0;
    }

    function LevelAt(s: Switch, t: nat): bool
      reads this
    {
      if s == FrontSwitch then front(t) else rear(t)
    }

    /** `GPIO.input(pin)`. */
    method Input(s: Switch) returns (level: bool)
      modifies this
      ensures level == LevelAt(s, old(now))
      ensures now == old(now) + 1
    {
      level := LevelAt(s, now);
      now := now + 1;
    }
  }

  /** A switch input is wired active-low: a low level means pressed. */
  function Pressed(level: bool): bool
  {
    !level
  }

  datatype LimitsConfig = LimitsConfig(frontLimitSwitchPin: Option<string>, rearLimitSwitchPin: Option<string>)

  class MotorLimits {
    const frontPin: string
    const rearPin: string
    const gpio: LimitInputs

    constructor (config: LimitsConfig, gpio: LimitInputs)
      ensures frontPin == config.frontLimitSwitchPin.GetOr(FRONT_LIMIT_SWITCH_PIN)
      ensures rearPin == config.rearLimitSwitchPin.GetOr(REAR_LIMIT_SWITCH_PIN)
      ensures this.gpio == gpio
    {
      frontPin := config.frontLimitSwitchPin.GetOr(FRONT_LIMIT_SWITCH_PIN);
      rearPin := config.rearLimitSwitchPin.GetOr(REAR_LIMIT_SWITCH_PIN);
      this.gpio := gpio;
    }

    /** `is_front_limit_pressed`: pressed exactly when the input reads low;
        only the input schedule moves on. */
    method IsFrontLimitPressed() returns (pressed: bool)
      modifies gpio
      ensures pressed <==> !gpio.front(old(gpio.now))
      ensures gpio.now == old(gpio.now) + 1
    {
      var level := gpio.Input(FrontSwitch);
      pressed := Pressed(level);
    }

    /** `is_rear_limit_pressed`: the same for the rear input. */
    method IsRearLimitPressed() returns (pressed: bool)
      modifies gpio
      ensures pressed <==> !gpio.rear(old(gpio.now))
      ensures gpio.now == old(gpio.now) + 1
    {
      var level := gpio.Input(RearSwitch);
      pressed := Pressed(level);
    }
  }
}
