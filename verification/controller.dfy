/** The input side of control/controller.py: the integer MinMax normalisation, the raw
    controller state with its hysteresis setters, the normalising getters, and the
    event-code dispatch table. */
module Controller {
  import opened Common

  // Hardware ranges and goal (PWM) ranges.
  const AxisHardwareMax: int := 32767
  const AxisHardwareMin: int := -32768
  const AxisHigh: int := 1900
  const AxisLow: int := 1100
  const TriggerHardwareMax: int := 255
  const TriggerHardwareMin: int := 0
  const TriggerHigh: int := 1900
  const TriggerLow: int := 1500

  /** A new axis reading is accepted when it moved at least this far. */
  const Sensitivity: int := 100

  /** The PWM value meaning "no input"; `IdleDerivation` shows it is what the source computes. */
  const Idle: int := 1500

  /** The fixed offset from idle that a held button contributes. */
  const ButtonSensitivity: int := 400

  // ------------------------------------------------------------ normalisation

  /** Python's `int()` applied to the exact quotient n / d: truncation toward zero. The
      remainder n - q * d is smaller than the divisor in magnitude and, unless it is zero,
      has the sign of the numerator; on a non-negative numerator and divisor this is floor
      division. */
  function TruncDiv(n: int, d: int): (q: int)
    requires d != 0
    ensures Abs(n - q * d) < Abs(d)
    ensures n - q * d == 0 || (n - q * d > 0) == (n > 0)
    ensures n >= 0 && d > 0 ==> q == n / d
  {
    TruncRemainder(n, d, Abs(n) / Abs(d));
    if (n >= 0) == (d > 0) then Abs(n) / Abs(d) else -(Abs(n) / Abs(d))
  }

  /** With m the floor quotient of the magnitudes, the signed quotient leaves a remainder
      smaller than the divisor with the numerator's sign. */
  lemma TruncRemainder(n: int, d: int, m: int)
    requires d != 0 && m == Abs(n) / Abs(d)
    ensures var q := if (n >= 0) == (d > 0) then m else -m;
      Abs(n - q * d) < Abs(d) && (n - q * d == 0 || (n - q * d > 0) == (n > 0))
  {
    var a := Abs(n);
    var b := Abs(d);
    assert b > 0;
    var t := a % b;
    assert a == m * b + t && 0 <= t < b;
    assert a == 0 ==> t == 0;
    var q := if (n >= 0) == (d > 0) then m else -m;
    if n >= 0 {
      assert q * d == m * b by {
        if d < 0 { assert q * d == (-m) * (-b); }
      }
      assert n - q * d == t;
    } else {
      assert q * d == -(m * b) by {
        if d > 0 { assert q * d == (-m) * b; } else { assert q * d == m * (-b); }
      }
      assert n - q * d == -t;
    }
  }

  /** The integer MinMax normalisation: the real value
      intendedMin + (value - currentMin) * (intendedMax - intendedMin) / (currentMax - currentMin)
      truncated toward zero, written over the common denominator currentMax - currentMin. */
  function Normalise(value: int, currentMin: int, currentMax: int, intendedMin: int, intendedMax: int): (r: int)
    requires currentMax != currentMin
    ensures value == currentMin ==> r == intendedMin
    ensures value == currentMax ==> r == intendedMax
  {
    var d := currentMax - currentMin;
    var n := intendedMin * d + (value - currentMin) * (intendedMax - intendedMin);
    TruncDivExact(intendedMin, d);
    TruncDivExact(intendedMax, d);
    assert value == currentMax ==> n == intendedMax * d;
    TruncDiv(n, d)
  }

  /** A numerator that is an exact multiple of the divisor is divided exactly. */
  lemma TruncDivExact(k: int, d: int)
    requires d != 0
    ensures TruncDiv(k * d, d) == k
  {
    AbsMul(k, d);
    MulDivCancel(Abs(k), Abs(d));
    if k > 0 {
      assert (k * d > 0) == (d > 0);
    } else if k < 0 {
      assert (k * d > 0) == (d < 0);
    }
  }

  lemma AbsMul(k: int, d: int)
    ensures Abs(k * d) == Abs(k) * Abs(d)
  {
    if k < 0 && d < 0 {
      assert k * d == (-k) * (-d);
    } else if k < 0 {
      assert k * d == -((-k) * d);
    } else if d < 0 {
      assert k * d == -(k * (-d));
    }
  }

  lemma MulMono(a: int, b: int, d: int)
    requires d > 0 && a <= b
    ensures a * d <= b * d
  {
  }

  /** Floor division is determined by quotient and remainder. */
  lemma DivUnique(n: int, d: int, q: int, r: int)
    requires d > 0 && n == q * d + r && 0 <= r < d
    ensures n / d == q
  {
    var q' := n / d;
    if q' > q {
      MulMono(q + 1, q', d);
    } else if q' < q {
      MulMono(q' + 1, q, d);
    }
  }

  lemma MulDivCancel(k: int, d: int)
    requires d > 0
    ensures (k * d) / d == k
  {
    DivUnique(k * d, d, k, 0);
  }

  /** Where the numerator is non-negative the source's truncation agrees with floor division,
      so the normalised value is intendedMin plus a floor quotient. */
  lemma NormaliseAsFloor(value: int, currentMin: int, currentMax: int, intendedMin: int, intendedMax: int)
    requires currentMin < currentMax
    requires intendedMin * (currentMax - currentMin) + (value - currentMin) * (intendedMax - intendedMin) >= 0
    ensures Normalise(value, currentMin, currentMax, intendedMin, intendedMax)
         == intendedMin + ((value - currentMin) * (intendedMax - intendedMin)) / (currentMax - currentMin)
  {
    var d := currentMax - currentMin;
    var x := (value - currentMin) * (intendedMax - intendedMin);
    MulAddDiv(intendedMin, x, d);
  }

  lemma MulAddDiv(k: int, x: int, d: int)
    requires d > 0
    ensures (k * d + x) / d == k + x / d
  {
    var q := x / d;
    var r := x % d;
    assert (k + q) * d == k * d + q * d;
    DivUnique(k * d + x, d, k + q, r);
  }

  lemma DivMonotone(x: int, y: int, d: int)
    requires d > 0 && x <= y
    ensures x / d <= y / d
  {
    var qx := x / d;
    var qy := y / d;
    if qx > qy {
      MulMono(qy + 1, qx, d);
    }
  }

  /** The idle value and the button offset are what the source derives from the ranges. */
  lemma IdleDerivation()
    ensures Normalise(0, AxisHardwareMin, AxisHardwareMax, AxisLow, AxisHigh) == Idle
    ensures Min(400, AxisHigh - Idle) == ButtonSensitivity
  {
    NormaliseAsFloor(0, AxisHardwareMin, AxisHardwareMax, AxisLow, AxisHigh);
  }

  // ------------------------------------------------------------------ getters

  predicate AxisInRange(raw: int)
  {
    AxisHardwareMin <= raw <= AxisHardwareMax
  }

  predicate TriggerInRange(raw: int)
  {
    TriggerHardwareMin <= raw <= TriggerHardwareMax
  }

  /** The getter of every stick axis. */
  function AxisValue(raw: int): (r: int)
    ensures AxisInRange(raw) ==> AxisLow <= r <= AxisHigh
    ensures raw == AxisHardwareMin ==> r == AxisLow
    ensures raw == AxisHardwareMax ==> r == AxisHigh
    ensures raw == 0 ==> r == Idle
  {
    var r := Normalise(raw, AxisHardwareMin, AxisHardwareMax, AxisLow, AxisHigh);
    AxisBounds(raw);
    r
  }

  lemma AxisBounds(raw: int)
    ensures AxisInRange(raw) ==> AxisLow <= Normalise(raw, AxisHardwareMin, AxisHardwareMax, AxisLow, AxisHigh) <= AxisHigh
  {
    if AxisInRange(raw) {
      AxisAsFloor(raw);
    }
  }

  lemma AxisAsFloor(raw: int)
    requires AxisInRange(raw)
    ensures Normalise(raw, AxisHardwareMin, AxisHardwareMax, AxisLow, AxisHigh)
         == AxisLow + ((raw - AxisHardwareMin) * (AxisHigh - AxisLow)) / (AxisHardwareMax - AxisHardwareMin)
    ensures 0 <= ((raw - AxisHardwareMin) * (AxisHigh - AxisLow)) / (AxisHardwareMax - AxisHardwareMin) <= AxisHigh - AxisLow
  {
    NormaliseAsFloor(raw, AxisHardwareMin, AxisHardwareMax, AxisLow, AxisHigh);
    DivMonotone(0, (raw - AxisHardwareMin) * 800, 65535);
    DivMonotone((raw - AxisHardwareMin) * 800, 65535 * 800, 65535);
  }

  /** Over the hardware range the stick getter is monotone in the raw reading. */
  lemma AxisValueMonotone(raw1: int, raw2: int)
    requires AxisInRange(raw1) && AxisInRange(raw2) && raw1 <= raw2
    ensures AxisValue(raw1) <= AxisValue(raw2)
  {
    AxisAsFloor(raw1);
    AxisAsFloor(raw2);
    DivMonotone((raw1 - AxisHardwareMin) * 800, (raw2 - AxisHardwareMin) * 800, 65535);
  }

  /** The right trigger getter: [0, 255] onto [1500, 1900]. */
  function RightTriggerValue(raw: int): (r: int)
    ensures TriggerInRange(raw) ==> TriggerLow <= r <= TriggerHigh
    ensures raw == TriggerHardwareMin ==> r == Idle
    ensures raw == TriggerHardwareMax ==> r == TriggerHigh
  {
    var r := Normalise(raw, TriggerHardwareMin, TriggerHardwareMax, TriggerLow, TriggerHigh);
    RightTriggerAsFloor(raw);
    r
  }

  lemma RightTriggerAsFloor(raw: int)
    ensures TriggerInRange(raw) ==>
      TriggerLow <= Normalise(raw, TriggerHardwareMin, TriggerHardwareMax, TriggerLow, TriggerHigh) <= TriggerHigh
  {
    if TriggerInRange(raw) {
      NormaliseAsFloor(raw, TriggerHardwareMin, TriggerHardwareMax, TriggerLow, TriggerHigh);
      DivMonotone(0, raw * 400, 255);
      DivMonotone(raw * 400, 255 * 400, 255);
    }
  }

  /** The left trigger getter: [0, 255] onto the reversed range from 1500 down to
      2 * 1500 - 1900 = 1100. */
  function LeftTriggerValue(raw: int): (r: int)
    ensures TriggerInRange(raw) ==> 2 * TriggerLow - TriggerHigh <= r <= TriggerLow
    ensures raw == TriggerHardwareMin ==> r == Idle
    ensures raw == TriggerHardwareMax ==> r == 2 * TriggerLow - TriggerHigh
  {
    var r := Normalise(raw, TriggerHardwareMin, TriggerHardwareMax, TriggerLow, 2 * TriggerLow - TriggerHigh);
    LeftTriggerAsFloor(raw);
    r
  }

  lemma LeftTriggerAsFloor(raw: int)
    ensures TriggerInRange(raw) ==>
      2 * TriggerLow - TriggerHigh
      <= Normalise(raw, TriggerHardwareMin, TriggerHardwareMax, TriggerLow, 2 * TriggerLow - TriggerHigh)
      <= TriggerLow
  {
    if TriggerInRange(raw) {
      NormaliseAsFloor(raw, TriggerHardwareMin, TriggerHardwareMax, TriggerLow, 2 * TriggerLow - TriggerHigh);
      DivMonotone(-255 * 400, raw * -400, 255);
      DivMonotone(raw * -400, 0, 255);
    }
  }

  // -------------------------------------------------------------------- state

  datatype Button = A | B | X | Y | LB | RB | LeftStick | RightStick | Select | Start

  /** The controller's raw state: last accepted stick readings, raw trigger readings, the hat
      (its y component stored negated), the held buttons, and the positions of the two
      stateful actuators (arm servo and lamp). */
  datatype Gamepad = Gamepad(
    leftAxisX: int, leftAxisY: int, rightAxisX: int, rightAxisY: int,
    leftTrigger: int, rightTrigger: int,
    hatX: int, hatY: int,
    pressed: set<Button>,
    arm: int, lamp: int)

  const ArmStart: int := 1500
  const LampStart: int := 1100

  /** A freshly constructed controller, before its first data-manager update. */
  function NewGamepad(): (g: Gamepad)
    ensures g.pressed == {} && g.arm == Idle && g.lamp == AxisLow
    ensures AxisValue(g.leftAxisX) == Idle && AxisValue(g.rightAxisX) == Idle
    ensures AxisValue(g.leftAxisY) == Idle && AxisValue(g.rightAxisY) == Idle
    ensures LeftTriggerValue(g.leftTrigger) == Idle && RightTriggerValue(g.rightTrigger) == Idle
  {
    Gamepad(0, 0, 0, 0, 0, 0, 0, 0, {}, ArmStart, LampStart)
  }

  /** Every raw reading lies in its hardware range and the hat in {-1, 0, 1}. */
  predicate InRange(g: Gamepad)
  {
    && AxisInRange(g.leftAxisX) && AxisInRange(g.leftAxisY)
    && AxisInRange(g.rightAxisX) && AxisInRange(g.rightAxisY)
    && TriggerInRange(g.leftTrigger) && TriggerInRange(g.rightTrigger)
    && -1 <= g.hatX <= 1 && -1 <= g.hatY <= 1
  }

  // --------------------------------------------------------------- hysteresis

  /** The stick setters: a reading is taken when it is a hardware extreme or moved at
      least `Sensitivity` from the stored one; otherwise the stored reading stays. */
  function AcceptAxis(stored: int, value: int): (r: int)
    ensures r == value || r == stored
    ensures r != stored <==>
      value != stored && (value == AxisHardwareMax || value == AxisHardwareMin || Abs(stored - value) >= Sensitivity)
  {
    if value == AxisHardwareMax || value == AxisHardwareMin || Abs(stored - value) >= Sensitivity then value
    else stored
  }

  /** A run of stick readings fed one by one to the setter. */
  function FeedAxis(stored: int, values: seq<int>): int
    decreases |values|
  {
    if |values| == 0 then stored else FeedAxis(AcceptAxis(stored, values[0]), values[1..])
  }

  predicate Jitter(stored: int, value: int)
  {
    value != AxisHardwareMax && value != AxisHardwareMin && Abs(stored - value) < Sensitivity
  }

  /** Readings that are no extreme and stay within the threshold of the accepted reading never
      change it, so the normalised output does not change either. */
  lemma {:induction false} JitterSuppressed(stored: int, values: seq<int>)
    requires forall i | 0 <= i < |values| :: Jitter(stored, values[i])
    ensures FeedAxis(stored, values) == stored
    ensures AxisValue(FeedAxis(stored, values)) == AxisValue(stored)
    decreases |values|
  {
    if |values| > 0 {
      assert AcceptAxis(stored, values[0]) == stored;
      JitterSuppressed(stored, values[1..]);
    }
  }

  /** A hardware extreme is always taken, whatever the stored reading. */
  lemma ExtremeAlwaysAccepted(stored: int, values: seq<int>)
    requires |values| > 0
    requires values[|values| - 1] == AxisHardwareMax || values[|values| - 1] == AxisHardwareMin
    ensures FeedAxis(stored, values) == values[|values| - 1]
    decreases |values|
  {
    if |values| > 1 {
      ExtremeAlwaysAccepted(AcceptAxis(stored, values[0]), values[1..]);
    }
  }

  // ----------------------------------------------------------------- dispatch

  /** The attributes an event can write. */
  datatype Field =
    | LeftAxisX | LeftAxisY | RightAxisX | RightAxisY
    | LeftTrigger | RightTrigger
    | HatX | HatY
    | Held(button: Button)

  /** The event code to attribute table; BTN_START and BTN_SELECT are cross-wired. */
  const DispatchMap: map<string, Field> := map[
    "ABS_X" := LeftAxisX,
    "ABS_Y" := LeftAxisY,
    "ABS_RX" := RightAxisX,
    "ABS_RY" := RightAxisY,
    "ABS_Z" := LeftTrigger,
    "ABS_RZ" := RightTrigger,
    "ABS_HAT0X" := HatX,
    "ABS_HAT0Y" := HatY,
    "BTN_SOUTH" := Held(A),
    "BTN_EAST" := Held(B),
    "BTN_WEST" := Held(X),
    "BTN_NORTH" := Held(Y),
    "BTN_TL" := Held(LB),
    "BTN_TR" := Held(RB),
    "BTN_THUMBL" := Held(LeftStick),
    "BTN_THUMBR" := Held(RightStick),
    "BTN_START" := Held(Select),
    "BTN_SELECT" := Held(Start)
  ]

  /** The stored (raw) value of an attribute; a held button reads 1, a released one 0. */
  function Read(g: Gamepad, f: Field): int
  {
    match f
    case LeftAxisX => g.leftAxisX
    case LeftAxisY => g.leftAxisY
    case RightAxisX => g.rightAxisX
    case RightAxisY => g.rightAxisY
    case LeftTrigger => g.leftTrigger
    case RightTrigger => g.rightTrigger
    case HatX => g.hatX
    case HatY => g.hatY
    case Held(b) => if b in g.pressed then 1 else 0
  }

  predicate IsStick(f: Field)
  {
    f.LeftAxisX? || f.LeftAxisY? || f.RightAxisX? || f.RightAxisY?
  }

  /** Assigning an event state to one attribute through its setter. Buttons keep the state's
      truth value; the triggers and hat x are stored as given; hat y is stored negated. */
  function SetField(g: Gamepad, f: Field, state: int): (r: Gamepad)
    ensures forall h: Field :: h != f ==> Read(r, h) == Read(g, h)
    ensures r.arm == g.arm && r.lamp == g.lamp
    ensures IsStick(f) ==> Read(r, f) == AcceptAxis(Read(g, f), state)
    ensures f.LeftTrigger? || f.RightTrigger? || f.HatX? ==> Read(r, f) == state
    ensures f.HatY? ==> Read(r, f) == -state
    ensures f.Held? ==> (f.button in r.pressed <==> state != 0)
  {
    match f
    case LeftAxisX => g.(leftAxisX := AcceptAxis(g.leftAxisX, state))
    case LeftAxisY => g.(leftAxisY := AcceptAxis(g.leftAxisY, state))
    case RightAxisX => g.(rightAxisX := AcceptAxis(g.rightAxisX, state))
    case RightAxisY => g.(rightAxisY := AcceptAxis(g.rightAxisY, state))
    case LeftTrigger => g.(leftTrigger := state)
    case RightTrigger => g.(rightTrigger := state)
    case HatX => g.(hatX := state)
    case HatY => g.(hatY := -state)
    case Held(b) => g.(pressed := if state != 0 then g.pressed + {b} else g.pressed - {b})
  }

  /** Routing one `(code, state)` event: registered codes reach their attribute's setter,
      every other code leaves the controller unchanged. */
  function Dispatch(g: Gamepad, code: string, state: int): (r: Gamepad)
    ensures code !in DispatchMap ==> r == g
    ensures code in DispatchMap ==>
      forall h: Field :: h != DispatchMap[code] ==> Read(r, h) == Read(g, h)
    ensures r.arm == g.arm && r.lamp == g.lamp
  {
    if code in DispatchMap then SetField(g, DispatchMap[code], state) else g
  }

  /** The start button sets `select` and the select button sets `start`; the vertical hat is
      stored negated. */
  lemma DispatchCrossWiredAndNegated(g: Gamepad, state: int)
    ensures (Select in Dispatch(g, "BTN_START", state).pressed) == (state != 0)
    ensures Start in Dispatch(g, "BTN_START", state).pressed <==> Start in g.pressed
    ensures (Start in Dispatch(g, "BTN_SELECT", state).pressed) == (state != 0)
    ensures Select in Dispatch(g, "BTN_SELECT", state).pressed <==> Select in g.pressed
    ensures Dispatch(g, "ABS_HAT0Y", state).hatY == -state
    ensures Dispatch(g, "ABS_HAT0X", state).hatX == state
  {
    assert Read(Dispatch(g, "BTN_START", state), Held(Start)) == Read(g, Held(Start));
    assert Read(Dispatch(g, "BTN_SELECT", state), Held(Select)) == Read(g, Held(Select));
  }

  // ----------------------------------------------------------------- snapshot

  /** What the getters return: the normalised view that the actuator rules read. */
  datatype Inputs = Inputs(
    leftAxisX: int, leftAxisY: int, rightAxisX: int, rightAxisY: int,
    leftTrigger: int, rightTrigger: int,
    hatX: int, hatY: int,
    pressed: set<Button>)

  function Snapshot(g: Gamepad): (s: Inputs)
    ensures InRange(g) ==> InputsInRange(s)
  {
    Inputs(
      AxisValue(g.leftAxisX), AxisValue(g.leftAxisY), AxisValue(g.rightAxisX), AxisValue(g.rightAxisY),
      LeftTriggerValue(g.leftTrigger), RightTriggerValue(g.rightTrigger),
      g.hatX, g.hatY, g.pressed)
  }

  predicate InPwmRange(v: int)
  {
    AxisLow <= v <= AxisHigh
  }

  /** Every normalised reading within the PWM range [1100, 1900] and the hat in {-1, 0, 1}. */
  predicate InputsInRange(s: Inputs)
  {
    && InPwmRange(s.leftAxisX) && InPwmRange(s.leftAxisY)
    && InPwmRange(s.rightAxisX) && InPwmRange(s.rightAxisY)
    && InPwmRange(s.leftTrigger) && InPwmRange(s.rightTrigger)
    && -1 <= s.hatX <= 1 && -1 <= s.hatY <= 1
  }
}
