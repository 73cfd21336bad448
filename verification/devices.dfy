/** The draft device abstractions of control/devices.py: a three-axis `Joystick` and a
    four-axis `Controller`, each storing axes already normalised by `Tools.Normalise`. */
module Devices {
  import Tools

  const HardwareMax: int := 32767
  const HardwareMin: int := -32768

  const JoystickMax: int := 1000
  const JoystickMin: int := -1000

  const ControllerMax: int := 2000
  const ControllerMin: int := -2000

  /** Python's `//` on these operands: the sum is 0, so floor and Dafny's division agree. */
  function Midpoint(hi: int, lo: int): int
  {
    (hi + lo) / 2
  }

  /** A raw hardware reading normalised onto [lo, hi], as every setter does. */
  function NormaliseAxis(value: int, lo: int, hi: int): real
  {
    Tools.Normalise(value as real, HardwareMin as real, HardwareMax as real, lo as real, hi as real)
  }

  predicate RawInRange(value: int)
  {
    HardwareMin <= value <= HardwareMax
  }

  lemma NormaliseAxisInRange(value: int, lo: int, hi: int)
    ensures RawInRange(value) && lo <= hi ==> lo as real <= NormaliseAxis(value, lo, hi) <= hi as real
  {
    if RawInRange(value) && lo <= hi {
      Tools.NormaliseInRange(value as real, HardwareMin as real, HardwareMax as real, lo as real, hi as real);
    }
  }

  // ---------------------------------------------------------------- Joystick

  datatype JoystickAxis = AxisX | AxisY | AxisZ

  datatype Joystick = Joystick(axisX: real, axisY: real, axisZ: real)
  {
    function Get(axis: JoystickAxis): real
    {
      match axis
      case AxisX => axisX
      case AxisY => axisY
      case AxisZ => axisZ
    }

    /** Every axis lies within the goal range [-1000, 1000]. */
    predicate Valid()
    {
      forall a: JoystickAxis :: JoystickMin as real <= Get(a) <= JoystickMax as real
    }
  }

  /** A new joystick: every axis at the midpoint of the goal range. */
  function NewJoystick(): (j: Joystick)
    ensures forall a: JoystickAxis :: j.Get(a) == 0.0
    ensures j.Valid()
  {
    var mid := Midpoint(JoystickMax, JoystickMin) as real;
    Joystick(mid, mid, mid)
  }

  /** The setter of one axis: stores the normalised raw value, other axes untouched. */
  function SetJoystickAxis(j: Joystick, axis: JoystickAxis, value: int): (r: Joystick)
    ensures r.Get(axis) == NormaliseAxis(value, JoystickMin, JoystickMax)
    ensures forall b: JoystickAxis :: b != axis ==> r.Get(b) == j.Get(b)
    ensures RawInRange(value) && j.Valid() ==> r.Valid()
  {
    var v := NormaliseAxis(value, JoystickMin, JoystickMax);
    NormaliseAxisInRange(value, JoystickMin, JoystickMax);
    match axis
    case AxisX => j.(axisX := v)
    case AxisY => j.(axisY := v)
    case AxisZ => j.(axisZ := v)
  }

  /** Feeding any sequence of in-range readings to a valid joystick keeps every axis in range. */
  lemma {:induction false} JoystickStaysValid(j: Joystick, events: seq<(JoystickAxis, int)>)
    requires j.Valid()
    requires forall i | 0 <= i < |events| :: RawInRange(events[i].1)
    ensures FeedJoystick(j, events).Valid()
    decreases |events|
  {
    if |events| > 0 {
      var j' := SetJoystickAxis(j, events[0].0, events[0].1);
      assert j'.Valid();
      JoystickStaysValid(j', events[1..]);
    }
  }

  function FeedJoystick(j: Joystick, events: seq<(JoystickAxis, int)>): Joystick
    decreases |events|
  {
    if |events| == 0 then j
    else FeedJoystick(SetJoystickAxis(j, events[0].0, events[0].1), events[1..])
  }

  // -------------------------------------------------------------- Controller

  datatype ControllerAxis = LeftX | LeftY | RightX | RightY

  datatype Controller = Controller(leftAxisX: real, leftAxisY: real, rightAxisX: real, rightAxisY: real)
  {
    function Get(axis: ControllerAxis): real
    {
      match axis
      case LeftX => leftAxisX
      case LeftY => leftAxisY
      case RightX => rightAxisX
      case RightY => rightAxisY
    }

    /** Every axis lies within the goal range [-2000, 2000]. */
    predicate Valid()
    {
      forall a: ControllerAxis :: ControllerMin as real <= Get(a) <= ControllerMax as real
    }
  }

  /** A new controller: every axis at the midpoint of the goal range. */
  function NewController(): (c: Controller)
    ensures forall a: ControllerAxis :: c.Get(a) == 0.0
    ensures c.Valid()
  {
    var mid := Midpoint(ControllerMax, ControllerMin) as real;
    Controller(mid, mid, mid, mid)
  }

  /** The setter of one axis: stores the normalised raw value, other axes untouched. */
  function SetControllerAxis(c: Controller, axis: ControllerAxis, value: int): (r: Controller)
    ensures r.Get(axis) == NormaliseAxis(value, ControllerMin, ControllerMax)
    ensures forall b: ControllerAxis :: b != axis ==> r.Get(b) == c.Get(b)
    ensures RawInRange(value) && c.Valid() ==> r.Valid()
  {
    var v := NormaliseAxis(value, ControllerMin, ControllerMax);
    NormaliseAxisInRange(value, ControllerMin, ControllerMax);
    match axis
    case LeftX => c.(leftAxisX := v)
    case LeftY => c.(leftAxisY := v)
    case RightX => c.(rightAxisX := v)
    case RightY => c.(rightAxisY := v)
  }

  /** The hardware extremes land exactly on the goal extremes. */
  lemma ControllerAxisExtremes(c: Controller, axis: ControllerAxis)
    ensures SetControllerAxis(c, axis, HardwareMin).Get(axis) == ControllerMin as real
    ensures SetControllerAxis(c, axis, HardwareMax).Get(axis) == ControllerMax as real
  {
  }
}
