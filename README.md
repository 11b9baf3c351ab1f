# Robot state controller and stall detector, modelled in Dafny

This project models the two stateful components of the robot state controller:

- **StallDetection** (`include/stallDetectionHeader.h`), a sliding-window stall/slip detector.
  It keeps a history of `Pose2D` samples. Once the history is full enough, it takes per-axis
  extremes over the window and evaluates a stall condition against two tolerances, an
  emergency-stop flag and the expected and actual velocities. On a stall it records the verdict,
  stamps the time and clears the window. It also produces a reverse (backup) velocity command.
- **RobotControllerNode** (`src/robot_controller_node.cpp`), a supervisory state machine.
  It has a robot state (STARTUP, READY, PAUSE, KILL) and a drive mode (MANUAL, AUTONOMOUS).
  It is driven by `boot`, the per-tick `update` and the joystick, kill and pause callbacks.

Files:

- `geometry_msgs.dfy`, module `GeometryMsgs`: the ROS messages `Pose2D`, `Vector3` and `Twist`,
  with `real` in place of `double`.
- `stall_detection.dfy`, module `StallDetector`:
  - the extreme finders as functions over `seq<Pose2D>`;
  - the literal stall condition and lemmas about it;
  - the class `StallDetection`, whose fields hold the window, the verdict, the stuck time,
    the stored velocities and the emergency-stop flag; its methods update them in place;
  - client methods that exercise the class.
- `robot_controller.dfy`, module `RobotStateController`:
  - the class `RobotControllerNode`, with the robot state and the drive mode as fields;
  - a ghost log `published`, to which each tick appends the (state, mode) pair it publishes;
  - client methods for the tick sequences.

The behaviour is reproduced literally, including the quirks of the source:

- The front pose is evicted only when the window holds strictly more than `queueSize` poses.
  The window can therefore hold `queueSize + 1` poses. Every evaluation is over `queueSize + 1`
  poses, except the one that completes a refill after a stall, which is over `queueSize` poses.
- The history starts with `queueSize` zero poses, so the very first sample is evaluated.
- `findMinElement("theta")` uses `max_element`, so the heading spread is always 0.
- The stall condition groups as `(A && B && C && D) || E`, which is how C++ parses it.
  Dafny does not allow `&&` and `||` to be mixed without parentheses, so the grouping is
  written out.
- The joystick toggles the drive mode on every `true` message. There is no edge detection.
- A kill forces MANUAL only at the next `update`, not in `killCallback`.

The code behaves as follows, which its names may not suggest:

- The window bound is `queueSize + 1`, not `queueSize`: the pop at
  `include/stallDetectionHeader.h:171` tests `>` before the push.
- After a detected stall the verdict stays `true` until the next evaluation. It does not become
  `false`. As the comment at `include/stallDetectionHeader.h:199` intends, the samples that
  refill the emptied window are not evaluated until it holds `queueSize` poses again.
- The drive-mode toggle at `src/robot_controller_node.cpp:70-82` has no rising-edge detection.
- Entering KILL (`src/robot_controller_node.cpp:88-97`) does not change the drive mode until the
  next tick (`src/robot_controller_node.cpp:56-57`).

Assumptions:

- `robot.h` is not part of this model. The robot is assumed to start in STARTUP, and the initial
  drive mode is a constructor parameter.
- The wall clock becomes the parameter `now` of the methods that may evaluate the window.
  `stuckTime` is a `PTime`: either `NotADateTime`, the value of a default-constructed ptime,
  or `At(now)`.
- `eStopStatus` is never initialised in the source, and its callback has an empty body. It is a
  constructor argument, and `EStopStatusCallback` leaves it unchanged.
- The configuration values read with `n.param` are constructor parameters. Their defaults are the
  `Default…` constants.
- The getters `GetStallStatus`, `GetReverseDurationInMilli`, `GetExpectedVelocity`,
  `GetMaxSpeed`, `GetReverseSpeed` and `GetLastStuckTime` are plain field reads. They carry no
  contract of their own; `DoBackup` uses two of them as the source does.
- Calling `min_element` or `max_element` on an empty window and dereferencing the result is
  undefined behaviour in C++. The finders instead return `Failure(EmptyWindow)`.
  `ActivateStallDetection` is public in the source, and its model requires a non-empty window.
  `AddVelocityToHistory` always meets that requirement, because it pushes a pose first.

## Model

| member | source | states |
|---|---|---|
| `StallDetector.Least` | include/stallDetectionHeader.h:50-55 | on a non-empty window, the value is the x/y/theta coordinate of some pose and is ≤ every pose's coordinate |
| `StallDetector.Greatest` | include/stallDetectionHeader.h:83-88 | on a non-empty window, the value is the coordinate of some pose and is ≥ every pose's coordinate |
| `StallDetector.FindMinElement` | include/stallDetectionHeader.h:46-78 | "x"/"y": the least coordinate. "theta": the GREATEST theta. These fail with EmptyWindow exactly when the window is empty. Any other string gives 0.0 |
| `StallDetector.FindMaxElement` | include/stallDetectionHeader.h:79-110 | "x"/"y"/"theta": the greatest coordinate. These fail exactly on an empty window. Any other string gives 0.0 |
| `StallDetector.HeadingSpreadIsZero` | include/stallDetectionHeader.h:66-73 | maxHeading − minHeading is 0 on every non-empty window |
| `StallDetector.StallCondition` | include/stallDetectionHeader.h:185-194 | the condition on the per-axis extremes of a non-empty window. An angular-z mismatch alone makes it true, whatever the window, tolerances and e-stop. Without one, it is true only with the e-stop set, a linear-x mismatch and a positive rotation tolerance. `ConditionWithoutAngularMismatch` and `StuckRobotIsDetected` characterise it fully |
| `StallDetector.ConditionWithoutAngularMismatch` | include/stallDetectionHeader.h:192-194 | without an angular mismatch, the condition holds iff the squared spread is < noMovementTolerance, 0 < noRotationTolerance, the e-stop is set and linear x differs |
| `StallDetector.SpreadZeroIffStationary` | include/stallDetectionHeader.h:192 | the sum of squared x/y ranges is ≥ 0. It is 0 exactly when all poses share x and y |
| `StallDetector.StuckRobotIsDetected` | include/stallDetectionHeader.h:192-196 | a window with no motion, the e-stop set and a linear-x mismatch satisfies the condition, for positive tolerances |
| `StallDetector.Slide` | include/stallDetectionHeader.h:171-175 | the new pose ends up last. The front pose is dropped only when the length exceeds queueSize. The retained poses are a suffix of the old window, in order. A length ≤ queueSize+1 stays ≤ queueSize+1 |
| `StallDetector.StallDetection.constructor` | include/stallDetectionHeader.h:129-144 | configuration as given. The verdict is false and there is no stuck time. The velocities are zero. The history holds exactly queueSize zero poses |
| `StallDetector.StallDetection.ActivateStallDetection` | include/stallDetectionHeader.h:183-203 | condition true: detected, stuckTime = now, window emptied. Condition false: not detected, window and stuckTime untouched. No other field changes |
| `StallDetector.StallDetection.AddVelocityToHistory` | include/stallDetectionHeader.h:169-182 | the window becomes Slide(old window). It is evaluated iff its length ≥ queueSize; otherwise the verdict and stuck time are unchanged. The queueSize+1 bound is kept |
| `StallDetector.StallDetection.RobotPositionCallback` | include/stallDetectionHeader.h:112-115 | the same state change as AddVelocityToHistory |
| `StallDetector.StallDetection.EStopStatusCallback` | include/stallDetectionHeader.h:116-119 | the emergency-stop flag (and everything else) is unchanged |
| `StallDetector.StallDetection.ExpectedRobotVelocityCallback` | include/stallDetectionHeader.h:120-123 | overwrites the expected twist and nothing else |
| `StallDetector.StallDetection.ActualRobotVelocityCallback` | include/stallDetectionHeader.h:124-127 | overwrites the actual twist and nothing else |
| `StallDetector.StallDetection.DoBackup` | include/stallDetectionHeader.h:206-215 | linear.x = maxSpeed·reverseSpeed and angular.z = 0. Every other component is the caller's. A positive max speed with a negative factor gives reverse motion |
| `StallDetector.FirstSampleEvaluates` | include/stallDetectionHeader.h:142-180 | when the window holds exactly queueSize poses, as a new detector's does, the next sample is evaluated on the old window plus the sample (queueSize+1 poses, kept if no stall) |
| `StallDetector.RefillWithoutEvaluation` | include/stallDetectionHeader.h:169-181 | after a stall has emptied the window, feeding fewer than queueSize samples leaves exactly those samples, in order, as the window. None is evaluated: the verdict and stuck time stay as the stall left them, as the comment at line 199 intends |
| `StallDetector.DefaultBackup` | include/stallDetectionHeader.h:138-139 | with the default max speed 0.7 and reverse factor −0.5, the backup command has linear.x = −0.35 and angular.z = 0 |
| `RobotStateController.Toggled` | src/robot_controller_node.cpp:72-77 | the toggled drive mode always differs from the current one |
| `RobotStateController.ToggledTwice` | src/robot_controller_node.cpp:70-82 | toggling twice gives back the original mode |
| `RobotStateController.RobotControllerNode.constructor` | src/robot_controller_node.cpp:23-27 | the constructor's own tick boots STARTUP to READY with the given mode, and publishes exactly that pair |
| `RobotStateController.RobotControllerNode.Boot` | src/robot_controller_node.cpp:35-49 | STARTUP ends in READY. Any other state is left as it is. The drive mode is unchanged |
| `RobotStateController.RobotControllerNode.Update` | src/robot_controller_node.cpp:54-64 | STARTUP→READY. KILL stays KILL and the mode becomes MANUAL. READY and PAUSE are unchanged. The resulting pair is always published. A published pair is never STARTUP, nor KILL with AUTONOMOUS |
| `RobotStateController.RobotControllerNode.JoystickCallback` | src/robot_controller_node.cpp:70-82 | true toggles the mode. false changes nothing. The robot state is never touched |
| `RobotStateController.RobotControllerNode.KillCallback` | src/robot_controller_node.cpp:88-97 | true gives KILL from any state. false gives STARTUP from KILL and is a no-op otherwise. The mode is never changed |
| `RobotStateController.RobotControllerNode.PauseCallback` | src/robot_controller_node.cpp:104-113 | true gives PAUSE from any state. false gives READY from PAUSE and is a no-op otherwise. The mode is never changed |
| `RobotStateController.KillThenTick` | src/robot_controller_node.cpp:54-97 | kill then one tick gives KILL with MANUAL, whatever the prior mode, and publishes that pair |
| `RobotStateController.UnkillThenTick` | src/robot_controller_node.cpp:48-94 | from KILL, unkill then one tick gives READY (via STARTUP) with the mode kept, and publishes exactly that pair |
| `RobotStateController.PauseRoundTrip` | src/robot_controller_node.cpp:104-113 | READY, pause, unpause gives READY again, with nothing published |
| `RobotStateController.PauseThenUnpause` | src/robot_controller_node.cpp:104-113 | pause then unpause from any state ends in READY, not in the prior state. Only the robot state may change; nothing is published |
| `RobotStateController.ToggleTwice` | src/robot_controller_node.cpp:70-82 | two true joystick messages restore the drive mode and leave the state alone. Only the drive mode may change; nothing is published |
| `RobotStateController.SteadyTicks` | src/robot_controller_node.cpp:54-64 | in READY or PAUSE, two ticks publish the same unchanged pair twice (heartbeat) and leave the state and mode as they were |

## Left out

- ROS plumbing is left out: the node handles, publishers, subscribers and topic names. It is
  infrastructure outside the components' logic. This includes the unused stall and PID publishers.
- Parameter loading (`n.param`, `m_nh.param`) is left out. The values are constructor parameters instead.
- The subscription of `/localization/velocity` to the expected-velocity callback is left out.
  It is topic wiring. Both velocity callbacks are modelled as separate setters.
- The wall clock `second_clock::local_time()` is replaced by the caller-supplied `now`.
- The blocking startup sleep (`m_waitTime`) and the logging flag are left out. Only the
  transition to READY is kept.
- All `ROS_DEBUG_COND` logging is left out.
- `main`, the 10 Hz rate loop and `spinOnce` are left out. Tick sequences appear as client
  methods that call `Update` and the callbacks.
- `softPauseCallback` is not defined in the available code and is not modelled.
- The fields `disableNavigationPID` and `overrideSpeed` are never read or written by the code
  shown, so they are not modelled.
- `robotStateToString`/`driveModeToString` are in `robot.h`, which is not part of this model.
  The published values are the enum values themselves.
- The "neither manual nor auto" branch of `joystickCallback` cannot occur with a two-valued drive mode.
- Floating-point rounding is not modelled. Doubles are `real`, `pow(·, 2)` is squaring and the
  `!=` comparisons are exact.
- `queueSize` is modelled as a `nat`. The C++ `int` parameter could be negative; that case is
  not modelled.
- `ActivateStallDetection`: called on an empty window, the source has undefined behaviour.
  The model requires a non-empty window instead.
