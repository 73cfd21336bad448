# Surface control software, modelled in Dafny

This project models the sequential cores of the surface-side software of an underwater
vehicle. The surface software reads a gamepad, turns its readings into PWM commands for the
thrusters, motors and light, keeps the commands in a shared data manager, limits the total
current before transmission, reassembles video frames sent back from the vehicle, and keeps
a grid of the cracks found on a dam.

| file | module | models |
|---|---|---|
| `common.dfy` | `Common` | `Option`, `Result` (a value or a raised error), absolute value, minimum |
| `tools.dfy` | `Tools` | the real-valued MinMax `normalise` of `control/tools.py` |
| `devices.dfy` | `Devices` | the draft `Joystick` and `Controller` of `control/devices.py` |
| `controller.dfy` | `Controller` | the integer `normalise`, the gamepad state, the hysteresis setters, the getters and the event dispatch table of `control/controller.py` |
| `actuators.dfy` | `Actuators` | the eight thruster rules, the arm, gripper and box motors, the light, and the data-manager tick of `control/controller.py` |
| `safeguard.dfy` | `Safeguard` | the quadratic current model and the current safeguard of `communication/data_manager.py` |
| `data_manager.dfy` | `DataManager` | `get`, `set`, `clear` and the transmission read of `communication/data_manager.py` |
| `video_stream.dfy` | `VideoStream` | the buffer and end-marker logic of `VideoStream._handle_data` |
| `dam.dfy` | `Dam` | `Dam`, `Square` and `Crack` of `vision/dam.py` |

Modelling choices:
- Every stateful object is an immutable datatype.
- Every operation is a pure function from the old state to the new state, or to a `Result` carrying the Python exception it raises.
- Reading `motor_arm` or `light_brightness` changes the controller's state. These reads are therefore step functions (`ArmStep`, `LightStep`) that return the new position, which is also the value read.
- The stored commands are `real`. Python ints are embedded exactly, and `1500.0 in {1500}` holds in Python as it does here.
- `math.sqrt` is a library call. The safeguard therefore takes it as a parameter `sqrt`, constrained by `IsSqrt` (`sqrt(x) >= 0` and `sqrt(x) * sqrt(x) == x` for `x >= 0`).

Behaviour worth knowing, modelled as the code has it:
- There is no stick deadzone. A stick reading is accepted when it is a hardware extreme or moved by at least 100 (`>=`). The triggers and the hat have no threshold.
- `BTN_START` sets `button_select` and `BTN_SELECT` sets `button_start`. The vertical hat is stored negated.
- Every tick writes all twenty mapped keys, whether or not they changed.
- The light saturates at 1100 and 1900 instead of wrapping. When B is held at the top, a held A still dims.
- The transmission read returns only the safeguarded keys. `Mot_R` (arm) and `LED_M` (light) are transmission keys but are never part of what it returns.
- The fitted current parabola has its minimum at about 1501.84, not at the idle command 1500.
  - Its minimum value is about -0.1758 A. At 1500 it predicts about -0.175 A, so ten idle commands pass the safeguard untouched.
  - "The nearer root" keeps a command on its side of the vertex, which is not exactly its side of idle.
- The dam's position setter accepts 0 to 12 inclusive, but there is no square 12. A crack marked there through the current position raises IndexError.

## Model

| member | source | states |
|---|---|---|
| Tools.Normalise | control/tools.py:14 | the minimum maps to the intended minimum, the maximum to the intended maximum, and every point lies on the line through those two pairs; equal current bounds are excluded, as the division is undefined there |
| Tools.NormaliseMonotone | control/tools.py:14 | on an increasing source range and a non-decreasing target range the map is monotone |
| Tools.NormaliseInRange | control/tools.py:14 | a value inside the source range lands inside the target range |
| Devices.NormaliseAxisInRange | control/devices.py:31 | a raw reading in [-32768, 32767] is normalised into the goal range |
| Devices.NewJoystick | control/devices.py:14-23 | a new joystick has all three axes at (1000 + -1000) // 2 = 0 and is within range |
| Devices.SetJoystickAxis | control/devices.py:29-47 | the set axis reads the normalised raw value, the other axes are unchanged, and an in-range reading keeps the joystick within [-1000, 1000] |
| Devices.JoystickStaysValid | control/devices.py:29-47 | any sequence of in-range readings keeps every joystick axis within [-1000, 1000] |
| Devices.NewController | control/devices.py:55-70 | a new controller has all four axes at (2000 + -2000) // 2 = 0 |
| Devices.SetControllerAxis | control/devices.py:76-102 | the set axis reads the normalised raw value, the others are unchanged, and an in-range reading keeps the controller within [-2000, 2000] |
| Devices.ControllerAxisExtremes | control/devices.py:76-102 | the hardware extremes land exactly on -2000 and 2000 |
| Controller.TruncDiv | control/controller.py:118 | Python's int() of an exact quotient truncates toward zero: the remainder is smaller than the divisor in magnitude and, unless it is zero, has the numerator's sign; for a non-negative numerator and a positive divisor this is floor division |
| Controller.Normalise | control/controller.py:104-118 | the integer normalisation maps the current minimum and maximum exactly onto the intended ones |
| Controller.NormaliseAsFloor | control/controller.py:118 | where the numerator is non-negative, the truncating normalisation equals intended minimum plus a floor quotient |
| Controller.IdleDerivation | control/controller.py:189-192 | normalise(0, -32768, 32767, 1100, 1900) is 1500, and min(400, 1900 - 1500) is 400 |
| Controller.AxisValue | control/controller.py:254-256 | the stick getter maps [-32768, 32767] into [1100, 1900], with -32768 to 1100, 32767 to 1900 and 0 to idle |
| Controller.AxisValueMonotone | control/controller.py:254-256 | over the hardware range the stick getter is monotone in the raw reading |
| Controller.RightTriggerValue | control/controller.py:299-302 | raw [0, 255] maps into [1500, 1900], raw 0 to idle and 255 to 1900 |
| Controller.LeftTriggerValue | control/controller.py:290-293 | raw [0, 255] maps into [1100, 1500] (the range reversed about 1500), raw 0 to idle and 255 to 1100 |
| Controller.NewGamepad | control/controller.py:175-199 | a new controller has no button held, the arm at 1500, the lamp at 1100, and every stick and trigger reading idle |
| Controller.AcceptAxis | control/controller.py:258-288 | the stored reading changes if and only if the new one differs and is a hardware extreme or at least 100 away |
| Controller.JitterSuppressed | control/controller.py:258-261 | any run of non-extreme readings within 99 of the stored one leaves it, and the normalised output, unchanged |
| Controller.ExtremeAlwaysAccepted | control/controller.py:258-261 | whatever came before, a run ending in a hardware extreme stores that extreme |
| Controller.SetField | control/controller.py:258-322 | one setter changes only its own attribute: sticks through the hysteresis, triggers and hat x as given, hat y negated, a button held if and only if the state is non-zero |
| Controller.Dispatch | control/controller.py:324-337 | an unregistered event code leaves the controller unchanged; a registered one changes only its mapped attribute |
| Controller.DispatchCrossWiredAndNegated | control/controller.py:207-226 | BTN_START sets select and BTN_SELECT sets start, each leaving the other untouched; ABS_HAT0Y stores the state negated |
| Controller.Snapshot | control/controller.py:254-318 | raw readings in their hardware ranges give every getter value in [1100, 1900] and a hat in {-1, 0, 1} |
| Actuators.FirstActive | control/controller.py:396-499 | an if/elif chain returns the value of its first active branch, and the final default when no branch is active; when no branch itself returns the default, the default comes out exactly when no branch is active |
| Actuators.Rules | control/controller.py:396-499 | the forward and aft chains have five branches and the top chains four, and every branch that is taken drives its thruster off 1500 |
| Actuators.Output | control/controller.py:396-499 | a thruster reads 1500 exactly when none of its branches is taken, and otherwise the value of a taken branch |
| Actuators.MirrorInvolutive | control/controller.py:416 | reflecting about idle twice is the identity, and a value is in [1100, 1900] exactly when its reflection is |
| Actuators.PriorityByOrder | control/controller.py:396-463 | a non-idle right trigger decides thruster FP whatever else is active; RB decides TFP even with LB and the sticks active; LB decides TFP without RB |
| Actuators.AtRestAllIdle | control/controller.py:396-499 | with every reading at idle and no button held, each of the eight thrusters returns 1500 |
| Actuators.OutputInRange | control/controller.py:396-499 | with every input in [1100, 1900], every thruster output, mirrored ones included, is in [1100, 1900] |
| Actuators.MirroredChains | control/controller.py:396-499 | two chains active at the same branches, one returning the other's values reflected about idle, give reflected results |
| Actuators.ForwardMirror | control/controller.py:396-422 | with both triggers idle, FS returns FP reflected about idle |
| Actuators.AftMirror | control/controller.py:424-451 | with both triggers idle, AS returns AP reflected about idle |
| Actuators.TopFrontMirror | control/controller.py:453-475 | with no bumper held and the left vertical stick idle, TFS returns TFP reflected about idle |
| Actuators.TopAftMirror | control/controller.py:477-499 | under the same conditions, TAS returns TAP reflected about idle |
| Actuators.ArmStep | control/controller.py:531-540 | one arm read moves +20 exactly when the hat is right and 1900 is not passed, -20 exactly when it is left and 1100 is not passed, otherwise 0; it keeps the arm on the 20-step grid through 1500 inside [1100, 1900] |
| Actuators.ArmHeldRight | control/controller.py:535-540 | holding the hat right for n reads gives min(arm + 20n, 1900) |
| Actuators.ArmStaysValid | control/controller.py:535-540 | any run of arm reads keeps the arm in [1100, 1900] on its grid |
| Actuators.Gripper | control/controller.py:542-543 | the gripper is idle with the hat centred, 1900 at +1 and 1100 at -1, and in range for any hat in {-1, 0, 1} |
| Actuators.LightStep | control/controller.py:568-577 | one light read brightens by 50 exactly when B is held and 1900 is not passed, dims by 50 exactly when that fails and A is held and 1100 is not passed, otherwise keeps the level; the grid from 1100 is kept |
| Actuators.LightSaturates | control/controller.py:572-577 | holding B for n reads gives min(lamp + 50n, 1900): the level saturates and never wraps |
| Actuators.LampStaysValid | control/controller.py:572-577 | any run of light reads keeps the lamp in [1100, 1900] on its 50-step grid |
| Actuators.ValueInRange | control/controller.py:396-583 | with in-range readings and a valid arm and lamp, every property the data manager reads, apart from the hat directions, is in [1100, 1900] |
| Actuators.Tick | control/controller.py:339-350 | a tick writes every mapped key with its property's value, changed or not, and keeps every other stored key; the arm and the light advance by exactly one read; no reading changes |
| Actuators.TickInRange | control/controller.py:339-350 | a tick from an in-range state keeps the arm and lamp valid and writes every PWM key within [1100, 1900] |
| Actuators.Value | control/controller.py:512-583 | a button property reads 0 or 1; at rest every thruster reads 1500; one read moves the arm by at most 20 and the light by at most 50; the box motor always reads 1500 |
| Actuators.DataManagerKeysNamed | control/controller.py:512-583 | the key table sends Thr_FP and Thr_TAS to their thrusters, Mot_R, Mot_G and Mot_F to the arm, gripper and box motors, LED_M to the light, and hy (registered at line 237) to the vertical hat |
| Safeguard.QuadAroundVertex | communication/data_manager.py:155 | completing the square: the quadratic equals a times the squared distance from the vertex plus its minimum, and so never drops below that minimum |
| Safeguard.QuadRoots | communication/data_manager.py:158-159 | with a square root of the discriminant, the two roots of the scaling function are solutions and every solution is one of them |
| Safeguard.FittedVertex | communication/data_manager.py:150-155 | the fitted parabola's vertex lies between 1501.8 and 1501.9 and its minimum between -0.176 and -0.175 |
| Safeguard.AmpAboveMinimum | communication/data_manager.py:155 | the predicted current of a command never drops below the fitted parabola's minimum, and reaches it only at the vertex |
| Safeguard.AmpAtIdle | communication/data_manager.py:147-155 | the idle command 1500 is predicted to draw between -0.18 and -0.17 A |
| Safeguard.DiscriminantNonNegative | communication/data_manager.py:158-193 | for every command and every share in (0, 1), the discriminant of the scaled target is non-negative, so the square root is always defined |
| Safeguard.Roots | communication/data_manager.py:158-159 | both returned values draw the target current, they lie on either side of the vertex and are symmetric about it, and there is no other solution |
| Safeguard.Nearer | communication/data_manager.py:199-202 | the chosen value draws the target current, is at least as near the command as every solution, is the +sqrt root on a tie, and stays on the command's side of the vertex |
| Safeguard.RescaledEntry | communication/data_manager.py:193-202 | an idle command is kept; any other becomes the command nearest to it that draws ratio times its current |
| Safeguard.RescaleAll | communication/data_manager.py:190-202 | the loop keeps the key set and sets every entry to the rescaled value of its original entry, whatever the visiting order |
| Safeguard.Share | communication/data_manager.py:184-187 | above the limit, the ratio limit / current lies strictly between 0 and 1 and scales the current exactly to the limit |
| Safeguard.IdleTotalNonPositive | communication/data_manager.py:147-184 | commands all at idle have a non-positive predicted total, so they are never rescaled |
| Safeguard.TotalAmpAppend | communication/data_manager.py:178-181 | the total current over two key lists placed end to end is the sum of the two totals |
| Safeguard.TotalAmpPermutation | communication/data_manager.py:178-181 | reordering the keys the currents are summed over leaves the total unchanged |
| Safeguard.TotalAmpOrderFree | communication/data_manager.py:178-181 | any two orders that list the same keys once each give the same total, so the dict's iteration order does not affect the sum |
| Safeguard.TotalWithinShare | communication/data_manager.py:178-181 | if every entry draws at most ratio times its former current, so does the total |
| Safeguard.TotalAtShare | communication/data_manager.py:178-181 | if every entry draws exactly ratio times its former current, so does the total |
| Safeguard.EntriesWithinShare | communication/data_manager.py:193-202 | after the loop every entry, idle ones included, draws at most ratio times its former current |
| Safeguard.BudgetKept | communication/data_manager.py:184-202 | after the loop the predicted total is within the limit, and equals it when no command is idle |
| Safeguard.Safeguard | communication/data_manager.py:164-205 | the keys are kept and idle commands are never changed; within the limit the data is returned as is; above it every command becomes the command nearest to it that draws limit / total times its current (idle ones are kept), the new total is within the limit, and equals the limit when nothing is idle; any key order listing every key once will do |
| DataManager.Get | communication/data_manager.py:97-99 | with no keys the whole store; with keys exactly the requested keys that are present, with their stored values |
| DataManager.Set | communication/data_manager.py:101-112 | every given key maps to its given value and every other key keeps its value; no key is lost |
| DataManager.Clear | communication/data_manager.py:114-121 | after clearing, every read returns nothing |
| DataManager.SetThenGet | communication/data_manager.py:98-112 | reading back the keys just written returns exactly what was written |
| DataManager.SetKeepsOthers | communication/data_manager.py:98-112 | reading keys a write did not touch returns the values from before the write |
| DataManager.GetIdempotent | communication/data_manager.py:98-99 | reading the same keys from a read changes nothing |
| DataManager.TransmissionData | communication/data_manager.py:171-172 | the transmission selection is the ordinary read cut down to the twelve transmission keys |
| DataManager.SafeguardData | communication/data_manager.py:175 | the safeguarded selection holds the selected keys that are safeguarded, with their stored values |
| DataManager.Transmit | communication/data_manager.py:161-205 | Mot_R and LED_M are never sent; idle commands are sent unchanged; within the limit the stored commands are sent unchanged; above it every safeguarded command is replaced by the command nearest to it that draws limit / total times its current; the predicted total sent is within 99 A |
| VideoStream.TailTestIsEndsWith | communication/video_stream.py:100 | the test on the last 27 bytes is exactly "ends with the marker", and no buffer shorter than the marker passes it |
| VideoStream.Step | communication/video_stream.py:82-109 | an error exactly when nothing is buffered after the append; an acknowledgement exactly when the buffer ends with the marker, then the bytes before the marker become the frame and the buffer empties; otherwise the chunk is appended and the frame kept |
| VideoStream.ShortBufferNoEmit | communication/video_stream.py:100 | a buffer shorter than the marker neither acknowledges nor changes the frame |
| VideoStream.RunAppend | communication/video_stream.py:92-109 | handling two batches of chunks is handling the second from where the first left off, with the acknowledgements added |
| VideoStream.ChunkSplitFrom | communication/video_stream.py:92-106 | from a buffer holding a prefix of a framed message, the rest in non-empty chunks is acknowledged exactly once, leaving the payload as frame and an empty buffer |
| VideoStream.ChunkSplit | communication/video_stream.py:92-106 | however one framed message is split into non-empty chunks, it is acknowledged once and its payload becomes the frame |
| VideoStream.LatestWins | communication/video_stream.py:92-106 | two framed messages in a row are both acknowledged and only the later payload is kept as the frame |
| Dam.NewDam | vision/dam.py:45-56 | a new dam has twelve empty squares and no position |
| Dam.FormatLength | vision/dam.py:169-171 | a stored length is clamped into [8, 20], is unchanged inside it, and is 20 above and 8 below |
| Dam.FormatLengthExample | vision/dam.py:23-34 | a reading of 21.3 is stored as 20 |
| Dam.ListIndex | vision/dam.py:79 | Python list indexing: indices -12 to 11 pick a square, negative ones counted from the end; any other is an IndexError |
| Dam.SetPosition | vision/dam.py:86-93 | the setter accepts exactly 0 to 12 inclusive and raises ValueError otherwise |
| Dam.MarkCrack | vision/dam.py:61-80 | a TypeError exactly when neither a position is given nor one set; the position is kept; no square that already holds a crack changes |
| Dam.MarkCrackEffect | vision/dam.py:71-80 | an index outside [-12, 12) is an IndexError; an empty target square gets the clamped length and nothing else changes; a marked target leaves the dam unchanged |
| Dam.PositionTwelveUnusable | vision/dam.py:72-93 | position 12 passes the setter, but marking a crack at the current position then raises IndexError |
| Dam.FirstMarkWins | vision/dam.py:79-80 | however many marks follow, a square keeps its first crack |

## Left out

- Threads, processes and busy-wait loops: `Controller._update_data`, `_read` and `init`, the video stream's thread, and the connection process. Only the step each loop body performs is modelled.
- communication/connection.py: the socket reconnect loop, blocking send and receive, and JSON exchange. It is network plumbing, and merging a received object into the store is `DataManager.Set`.
- The disk-backed cache behind the data manager. The store is an immutable map, so a transmission read cannot modify it.
- The thread safety of the store is also not modelled.
- Floating-point rounding of the current model, of the square root and of true division. Reals are used throughout, and `math.sqrt` is the parameter `sqrt` described above.
- `round(length, 1)` in `Crack._format_length`. Only the clamp is modelled.
- Unpickling of a received frame (`dill.loads`). The frame is the raw payload bytes. A payload that does not unpickle, the empty one included, raises in the source; the model stores it regardless.
- The `__str__` methods of the controller and the dam, `main.py`, `vision/frame.py` and the `@jit` decorator.
- Devices.ControllerAxisExtremes: states the extremes only. Monotonicity and the range are stated by `Tools.NormaliseMonotone` and `Devices.SetControllerAxis`.
- DataManager.Transmit: the key set of the result is stated through `DataManager.SafeguardData`, which the result's keys equal. The source sums the currents in its dict's iteration order. The model takes that order as a parameter that lists every safeguarded key once, and `Safeguard.TotalAmpOrderFree` shows that every such order gives the same total.
- Dam.MarkCrack: positions that are not integers (which Python would also reject or accept by equality) are not modelled; a missing position is `None`.
