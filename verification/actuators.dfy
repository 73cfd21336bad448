/** The actuator rules of control/controller.py: eight thruster priority chains over the
    normalised inputs, the arm servo, gripper and box motors, the light, and the periodic
    tick that writes every mapped value into the data manager. */
module Actuators {
  import opened Controller
  import DataManager

  // ------------------------------------------------------------ priority chains

  /** One branch of an if/elif chain: taken when `active`, returning `value`. */
  datatype Rule = Rule(active: bool, value: int)

  /** An if/elif chain with a final `else default`: the value of the first active rule. */
  function FirstActive(rules: seq<Rule>, default: int): (r: int)
    ensures (forall i | 0 <= i < |rules| :: !rules[i].active) ==> r == default
    ensures forall i | 0 <= i < |rules| && rules[i].active ::
      (forall j | 0 <= j < i :: !rules[j].active) ==> r == rules[i].value
    ensures r == default || exists i | 0 <= i < |rules| :: rules[i].active && r == rules[i].value
    // when no branch returns the default itself, the default comes out exactly when no branch is taken
    ensures (forall i | 0 <= i < |rules| && rules[i].active :: rules[i].value != default) ==>
      (r == default <==> forall i | 0 <= i < |rules| :: !rules[i].active)
    decreases |rules|
  {
    if |rules| == 0 then default
    else if rules[0].active then rules[0].value
    else
      var r := FirstActive(rules[1..], default);
      assert forall i | 1 <= i < |rules| :: rules[1..][i - 1] == rules[i];
      r
  }

  /** `2 * idle - v`: the reading reflected about idle, for a thruster mounted the other way. */
  function Mirror(v: int): int
  {
    2 * Idle - v
  }

  lemma MirrorInvolutive(v: int)
    ensures Mirror(Mirror(v)) == v
    ensures InPwmRange(v) <==> InPwmRange(Mirror(v))
  {
  }

  datatype Thruster = FP | FS | AP | AS | TFP | TFS | TAP | TAS

  /** A reading that counts when it is off idle. */
  function Moved(v: int): Rule
  {
    Rule(v != Idle, v)
  }

  /** A reading that counts when it is off idle, reflected about idle. */
  function MovedMirrored(v: int): Rule
  {
    Rule(v != Idle, Mirror(v))
  }

  function Pressed(s: Inputs, b: Button, v: int): Rule
  {
    Rule(b in s.pressed, v)
  }

  /** The eight chains, rule for rule in the source's order. Every branch that is taken
      drives the thruster off idle. */
  function Rules(t: Thruster, s: Inputs): (r: seq<Rule>)
    ensures |r| == if t in {FP, FS, AP, AS} then 5 else 4
    ensures forall i | 0 <= i < |r| && r[i].active :: r[i].value != Idle
  {
    var up := Idle + ButtonSensitivity;
    var down := Idle - ButtonSensitivity;
    match t
    case FP => [Moved(s.rightTrigger), Moved(s.leftTrigger), Moved(s.rightAxisX),
                Pressed(s, X, down), Pressed(s, Y, up)]
    case FS => [Moved(s.rightTrigger), Moved(s.leftTrigger), MovedMirrored(s.rightAxisX),
                Pressed(s, X, up), Pressed(s, Y, down)]
    case AP => [Moved(s.rightAxisX), Moved(s.rightTrigger), Moved(s.leftTrigger),
                Pressed(s, X, up), Pressed(s, Y, down)]
    case AS => [MovedMirrored(s.rightAxisX), Moved(s.rightTrigger), Moved(s.leftTrigger),
                Pressed(s, X, down), Pressed(s, Y, up)]
    case TFP => [Pressed(s, RB, up), Pressed(s, LB, down), Moved(s.leftAxisY), Moved(s.leftAxisX)]
    case TFS => [Pressed(s, RB, up), Pressed(s, LB, down), Moved(s.leftAxisY), MovedMirrored(s.leftAxisX)]
    case TAP => [Pressed(s, RB, up), Pressed(s, LB, down), MovedMirrored(s.leftAxisY), Moved(s.leftAxisX)]
    case TAS => [Pressed(s, RB, up), Pressed(s, LB, down), MovedMirrored(s.leftAxisY), MovedMirrored(s.leftAxisX)]
  }

  /** The value a thruster property returns: the first taken branch, idle when none is. */
  function Output(t: Thruster, s: Inputs): (r: int)
    ensures r == Idle <==> forall i | 0 <= i < |Rules(t, s)| :: !Rules(t, s)[i].active
    ensures r == Idle || exists i | 0 <= i < |Rules(t, s)| :: Rules(t, s)[i].active && r == Rules(t, s)[i].value
  {
    FirstActive(Rules(t, s), Idle)
  }

  /** Rule order decides: the right trigger overrides everything on the forward-port
      thruster, and RB overrides everything on the top-front-port thruster. */
  lemma PriorityByOrder(s: Inputs)
    ensures s.rightTrigger != Idle ==> Output(FP, s) == s.rightTrigger
    ensures s.rightTrigger == Idle && s.leftTrigger != Idle ==> Output(FP, s) == s.leftTrigger
    ensures s.rightAxisX != Idle ==> Output(AS, s) == Mirror(s.rightAxisX)
    ensures RB in s.pressed ==> Output(TFP, s) == Idle + ButtonSensitivity
    ensures RB !in s.pressed && LB in s.pressed ==> Output(TFP, s) == Idle - ButtonSensitivity
  {
    var r := Rules(FP, s);
    assert r[0] == Moved(s.rightTrigger) && r[1] == Moved(s.leftTrigger);
    assert Rules(AS, s)[0] == MovedMirrored(s.rightAxisX);
    var t := Rules(TFP, s);
    assert t[0] == Pressed(s, RB, Idle + ButtonSensitivity) && t[1] == Pressed(s, LB, Idle - ButtonSensitivity);
  }

  predicate AtRest(s: Inputs)
  {
    && s.leftAxisX == Idle && s.leftAxisY == Idle && s.rightAxisX == Idle && s.rightAxisY == Idle
    && s.leftTrigger == Idle && s.rightTrigger == Idle
    && s.pressed == {}
  }

  /** With every reading at idle and no button held, every thruster idles. */
  lemma AtRestAllIdle(s: Inputs, t: Thruster)
    requires AtRest(s)
    ensures Output(t, s) == Idle
  {
    var rules := Rules(t, s);
    assert forall i | 0 <= i < |rules| :: !rules[i].active;
  }

  /** With every input in the PWM range, every thruster output, mirrored ones included,
      stays in the PWM range. */
  lemma OutputInRange(s: Inputs, t: Thruster)
    requires InputsInRange(s)
    ensures InPwmRange(Output(t, s))
  {
    var rules := Rules(t, s);
    assert forall i | 0 <= i < |rules| :: InPwmRange(rules[i].value);
  }

  /** Port and starboard are mirror images: with both triggers idle the forward starboard
      thruster returns the forward port value reflected about idle. */
  lemma ForwardMirror(s: Inputs)
    requires s.rightTrigger == Idle && s.leftTrigger == Idle
    ensures Output(FS, s) == Mirror(Output(FP, s))
  {
    var p, q := Rules(FP, s), Rules(FS, s);
    assert !p[0].active && !p[1].active && !q[0].active && !q[1].active;
    MirroredChains(p, q);
  }

  /** The same for the aft pair. */
  lemma AftMirror(s: Inputs)
    requires s.rightTrigger == Idle && s.leftTrigger == Idle
    ensures Output(AS, s) == Mirror(Output(AP, s))
  {
    var p, q := Rules(AP, s), Rules(AS, s);
    assert !p[1].active && !p[2].active && !q[1].active && !q[2].active;
    MirroredChains(p, q);
  }

  /** The same for the top front pair, with no bumper held and the left vertical stick idle. */
  lemma TopFrontMirror(s: Inputs)
    requires RB !in s.pressed && LB !in s.pressed && s.leftAxisY == Idle
    ensures Output(TFS, s) == Mirror(Output(TFP, s))
  {
    MirroredChains(Rules(TFP, s), Rules(TFS, s));
  }

  /** The same for the top aft pair. */
  lemma TopAftMirror(s: Inputs)
    requires RB !in s.pressed && LB !in s.pressed && s.leftAxisY == Idle
    ensures Output(TAS, s) == Mirror(Output(TAP, s))
  {
    MirroredChains(Rules(TAP, s), Rules(TAS, s));
  }

  /** Two chains that are active at the same places, the second returning the first's values
      reflected about idle, return reflected values. */
  lemma {:induction false} MirroredChains(r1: seq<Rule>, r2: seq<Rule>)
    requires |r1| == |r2|
    requires forall i | 0 <= i < |r1| ::
      r1[i].active == r2[i].active && (r1[i].active ==> r2[i].value == Mirror(r1[i].value))
    ensures FirstActive(r2, Idle) == Mirror(FirstActive(r1, Idle))
    decreases |r1|
  {
    if |r1| > 0 && !r1[0].active {
      MirroredChains(r1[1..], r2[1..]);
    }
  }

  // ---------------------------------------------------------------- arm servo

  const ArmSpeed: int := 20

  /** The arm positions reachable from the start: in the PWM range, on the 20-step grid
      through 1500. */
  predicate ArmValid(arm: int)
  {
    AxisLow <= arm <= AxisHigh && (arm - ArmStart) % ArmSpeed == 0
  }

  /** One read of the arm property: one step towards the held hat direction unless the step
      would leave the PWM range. The returned value is the new position. */
  function ArmStep(arm: int, hatX: int): (r: int)
    ensures r == arm + ArmSpeed <==> hatX == 1 && arm + ArmSpeed <= AxisHigh
    ensures r == arm - ArmSpeed <==> hatX == -1 && arm - ArmSpeed >= AxisLow
    ensures r == arm || r == arm + ArmSpeed || r == arm - ArmSpeed
    ensures ArmValid(arm) ==> ArmValid(r)
  {
    if hatX == 1 && arm + ArmSpeed <= AxisHigh then arm + ArmSpeed
    else if hatX == -1 && arm - ArmSpeed >= AxisLow then arm - ArmSpeed
    else arm
  }

  /** Successive reads of the arm property with the given hat positions. */
  function FeedArm(arm: int, hats: seq<int>): int
    decreases |hats|
  {
    if |hats| == 0 then arm else FeedArm(ArmStep(arm, hats[0]), hats[1..])
  }

  /** Holding the hat right for `n` reads moves the arm `n` steps, stopping at the top. */
  lemma {:induction false} ArmHeldRight(arm: int, n: nat)
    requires ArmValid(arm)
    ensures FeedArm(arm, seq(n, _ => 1)) == if arm + n * ArmSpeed <= AxisHigh then arm + n * ArmSpeed else AxisHigh
    decreases n
  {
    if n > 0 {
      var hats := seq(n, _ => 1);
      assert hats[1..] == seq(n - 1, _ => 1);
      var next := ArmStep(arm, 1);
      ArmHeldRight(next, n - 1);
      if arm + ArmSpeed > AxisHigh {
        assert arm == AxisHigh;
      }
    }
  }

  /** Any run of reads keeps a valid arm valid. */
  lemma {:induction false} ArmStaysValid(arm: int, hats: seq<int>)
    requires ArmValid(arm)
    ensures ArmValid(FeedArm(arm, hats))
    decreases |hats|
  {
    if |hats| > 0 {
      ArmStaysValid(ArmStep(arm, hats[0]), hats[1..]);
    }
  }

  /** The gripper: idle offset by the button sensitivity in the (negated) hat y direction. */
  function Gripper(hatY: int): (r: int)
    ensures hatY == 0 ==> r == Idle
    ensures -1 <= hatY <= 1 ==> InPwmRange(r)
    ensures hatY == 1 ==> r == AxisHigh
    ensures hatY == -1 ==> r == AxisLow
  {
    Idle + hatY * ButtonSensitivity
  }

  /** The box motor is held at idle. */
  const Box: int := Idle

  // ---------------------------------------------------------------- the light

  const LampSpeed: int := 50

  /** The lamp levels reachable from the start: in the PWM range, on the 50-step grid from 1100. */
  predicate LampValid(lamp: int)
  {
    AxisLow <= lamp <= AxisHigh && (lamp - LampStart) % LampSpeed == 0
  }

  /** One read of the brightness property: B brightens, A dims, each only while the step
      stays inside the PWM range; when B cannot brighten, a held A still dims. */
  function LightStep(lamp: int, pressed: set<Button>): (r: int)
    ensures r == lamp + LampSpeed <==> B in pressed && lamp + LampSpeed <= AxisHigh
    ensures r == lamp - LampSpeed <==>
      !(B in pressed && lamp + LampSpeed <= AxisHigh) && A in pressed && lamp - LampSpeed >= AxisLow
    ensures r == lamp || r == lamp + LampSpeed || r == lamp - LampSpeed
    ensures LampValid(lamp) ==> LampValid(r)
  {
    if B in pressed && lamp + LampSpeed <= AxisHigh then lamp + LampSpeed
    else if A in pressed && lamp - LampSpeed >= AxisLow then lamp - LampSpeed
    else lamp
  }

  function FeedLight(lamp: int, presses: seq<set<Button>>): int
    decreases |presses|
  {
    if |presses| == 0 then lamp else FeedLight(LightStep(lamp, presses[0]), presses[1..])
  }

  /** Holding B brightens the lamp up to the top of the range and then holds it there:
      the level saturates rather than wrapping. */
  lemma {:induction false} LightSaturates(lamp: int, n: nat)
    requires LampValid(lamp)
    ensures FeedLight(lamp, seq(n, _ => {B})) ==
      if lamp + n * LampSpeed <= AxisHigh then lamp + n * LampSpeed else AxisHigh
    decreases n
  {
    if n > 0 {
      var presses := seq(n, _ => {B});
      assert presses[1..] == seq(n - 1, _ => {B});
      LightSaturates(LightStep(lamp, {B}), n - 1);
      if lamp + LampSpeed > AxisHigh {
        assert lamp == AxisHigh;
      }
    }
  }

  /** Any run of reads keeps a valid lamp level valid. */
  lemma {:induction false} LampStaysValid(lamp: int, presses: seq<set<Button>>)
    requires LampValid(lamp)
    ensures LampValid(FeedLight(lamp, presses))
    decreases |presses|
  {
    if |presses| > 0 {
      LampStaysValid(LightStep(lamp, presses[0]), presses[1..]);
    }
  }

  // ----------------------------------------------------------------- the tick

  /** The properties a data-manager key can name. */
  datatype Attribute =
    | Reading(field: Field)
    | ThrusterOf(thruster: Thruster)
    | MotorArm | MotorGripper | MotorBox
    | LightBrightness

  /** The data-manager key to property table. */
  const DataManagerMap: map<string, Attribute> := map[
    "lax" := Reading(LeftAxisX), "lay" := Reading(LeftAxisY),
    "rax" := Reading(RightAxisX), "ray" := Reading(RightAxisY),
    "lt" := Reading(LeftTrigger), "rt" := Reading(RightTrigger),
    "hx" := Reading(HatX), "hy" := Reading(HatY),
    "Thr_FP" := ThrusterOf(FP), "Thr_FS" := ThrusterOf(FS),
    "Thr_AP" := ThrusterOf(AP), "Thr_AS" := ThrusterOf(AS),
    "Thr_TFP" := ThrusterOf(TFP), "Thr_TFS" := ThrusterOf(TFS),
    "Thr_TAP" := ThrusterOf(TAP), "Thr_TAS" := ThrusterOf(TAS),
    "Mot_R" := MotorArm, "Mot_G" := MotorGripper, "Mot_F" := MotorBox,
    "LED_M" := LightBrightness
  ]

  /** What a getter returns for one reading. */
  function InputValue(s: Inputs, f: Field): int
  {
    match f
    case LeftAxisX => s.leftAxisX
    case LeftAxisY => s.leftAxisY
    case RightAxisX => s.rightAxisX
    case RightAxisY => s.rightAxisY
    case LeftTrigger => s.leftTrigger
    case RightTrigger => s.rightTrigger
    case HatX => s.hatX
    case HatY => s.hatY
    case Held(b) => if b in s.pressed then 1 else 0
  }

  /** What reading a property returns; the arm and light reads return the stepped position. */
  function Value(a: Attribute, g: Gamepad): (r: int)
    ensures a.Reading? && a.field.Held? ==> r == 0 || r == 1
    ensures a.ThrusterOf? && AtRest(Snapshot(g)) ==> r == Idle
    // the arm and the light move at most one step per read; the box never moves
    ensures a == MotorArm ==> r == g.arm || r == g.arm + ArmSpeed || r == g.arm - ArmSpeed
    ensures a == LightBrightness ==> r == g.lamp || r == g.lamp + LampSpeed || r == g.lamp - LampSpeed
    ensures a == MotorBox ==> r == Idle
  {
    var s := Snapshot(g);
    match a
    case Reading(f) => InputValue(s, f)
    case ThrusterOf(t) =>
      if AtRest(s) then AtRestAllIdle(s, t); Output(t, s) else Output(t, s)
    case MotorArm => ArmStep(g.arm, g.hatX)
    case MotorGripper => Gripper(s.hatY)
    case MotorBox => Box
    case LightBrightness => LightStep(g.lamp, g.pressed)
  }

  /** The hat readings are directions in {-1, 0, 1}; every other property is a PWM value. */
  predicate IsPwm(a: Attribute)
  {
    !(a == Reading(HatX) || a == Reading(HatY) || (a.Reading? && a.field.Held?))
  }

  /** With the raw readings in range and the stateful actuators valid, every PWM property
      reads inside the PWM range. */
  lemma ValueInRange(a: Attribute, g: Gamepad)
    requires InRange(g) && ArmValid(g.arm) && LampValid(g.lamp) && IsPwm(a)
    ensures InPwmRange(Value(a, g))
  {
    if a.ThrusterOf? {
      OutputInRange(Snapshot(g), a.thruster);
    }
  }

  /** One tick: every mapped key is written with its property's value, changed or not, every
      other stored key is kept, and the arm and the light advance by one read each. */
  function Tick(store: DataManager.Store, g: Gamepad): (r: (DataManager.Store, Gamepad))
    ensures r.0.Keys == store.Keys + DataManagerMap.Keys
    ensures forall k | k in DataManagerMap :: r.0[k] == Value(DataManagerMap[k], g) as real
    ensures forall k | k in store && k !in DataManagerMap :: r.0[k] == store[k]
    ensures r.1.arm == ArmStep(g.arm, g.hatX) && r.1.lamp == LightStep(g.lamp, g.pressed)
    ensures forall f: Field :: Read(r.1, f) == Read(g, f)
  {
    var writes := map k | k in DataManagerMap :: Value(DataManagerMap[k], g) as real;
    (store + writes, g.(arm := ArmStep(g.arm, g.hatX), lamp := LightStep(g.lamp, g.pressed)))
  }

  /** The ticks keep the stateful actuators valid, so every PWM key a tick writes lies in the
      PWM range on every tick. */
  lemma TickInRange(store: DataManager.Store, g: Gamepad)
    requires InRange(g) && ArmValid(g.arm) && LampValid(g.lamp)
    ensures var r := Tick(store, g);
      && InRange(r.1) && ArmValid(r.1.arm) && LampValid(r.1.lamp)
      && forall k | k in DataManagerMap && IsPwm(DataManagerMap[k]) ::
           AxisLow as real <= r.0[k] <= AxisHigh as real
  {
    forall a: Attribute | IsPwm(a)
      ensures InPwmRange(Value(a, g))
    {
      ValueInRange(a, g);
    }
  }

  /** The thruster keys name the thruster outputs, the motor keys the motors and the light
      key the light; `Tick` writes each key with the value of the attribute named here. */
  lemma DataManagerKeysNamed()
    ensures DataManagerMap["Thr_FP"] == ThrusterOf(FP) && DataManagerMap["Thr_TAS"] == ThrusterOf(TAS)
    ensures DataManagerMap["Mot_R"] == MotorArm && DataManagerMap["Mot_G"] == MotorGripper
    ensures DataManagerMap["Mot_F"] == MotorBox && DataManagerMap["LED_M"] == LightBrightness
    ensures DataManagerMap["hy"] == Reading(HatY)
  {
  }
}
