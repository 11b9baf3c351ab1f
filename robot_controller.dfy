/** The supervisory state machine of src/robot_controller_node.cpp.

    The Robot holder of robot.h is a getter/setter pair for the robot state
    and the drive mode, so both are fields of RobotControllerNode here.
    Publishing is modelled by Update returning the (state, mode) pair and
    appending it to the ghost log `published`. */
module RobotStateController {

  datatype State = Startup | Ready | Pause | Kill

  datatype DriveMode = Manual | Autonomous

  /** What one tick publishes on /state/robot and /state/drive_mode. */
  datatype Status = Status(robotState: State, driveMode: DriveMode)

  /** The drive mode a true joystick message switches to. */
  function Toggled(m: DriveMode): (r: DriveMode)
    ensures r != m
  {
    match m
    case Manual => Autonomous
    case Autonomous => Manual
  }

  /** A published status never reports STARTUP (a tick boots first), and
      never reports a killed robot in autonomous mode. */
  ghost predicate SafeStatus(s: Status)
  {
    s.robotState != Startup && (s.robotState == Kill ==> s.driveMode == Manual)
  }

  ghost predicate SafeLog(log: seq<Status>)
  {
    forall i :: 0 <= i < |log| ==> SafeStatus(log[i])
  }

  lemma ToggledTwice(m: DriveMode)
    ensures Toggled(Toggled(m)) == m
  {
  }

  class RobotControllerNode {
    var robotState: State
    var driveMode: DriveMode
    ghost var published: seq<Status>

    /** The robot starts in STARTUP (assumed of robot.h) with the given drive
        mode; the constructor's own tick boots it and publishes once. */
    constructor (initialDriveMode: DriveMode)
      ensures robotState == Ready && driveMode == initialDriveMode
      ensures published == [Status(Ready, initialDriveMode)]
      ensures SafeLog(published)
    {
      robotState := Startup;
      driveMode := initialDriveMode;
      published := [];
      new;
      var status := Update();
    }

    /** STARTUP -> READY; in any other state nothing happens. */
    method Boot()
      modifies this`robotState
      ensures old(robotState) == Startup ==> robotState == Ready
      ensures old(robotState) != Startup ==> robotState == old(robotState)
      ensures driveMode == old(driveMode)
    {
      if robotState != Startup {
        return;
      }
      robotState := Ready;
    }

    /** One tick: boot from STARTUP, force MANUAL in KILL, then publish the
        current pair whether or not it changed. */
    method Update() returns (status: Status)
      modifies this`robotState, this`driveMode, this`published
      ensures old(robotState) == Startup ==> robotState == Ready && driveMode == old(driveMode)
      ensures old(robotState) == Kill ==> robotState == Kill && driveMode == Manual
      ensures old(robotState) in {Ready, Pause} ==>
                robotState == old(robotState) && driveMode == old(driveMode)
      ensures status == Status(robotState, driveMode)
      ensures published == old(published) + [status]
      ensures SafeStatus(status)
      ensures SafeLog(old(published)) ==> SafeLog(published)
    {
      if robotState == Startup {
        Boot();
      } else if robotState == Kill {
        driveMode := Manual;
      }
      status := Status(robotState, driveMode);
      published := published + [status];
    }

    /** Every true message toggles the drive mode (no edge detection). */
    method JoystickCallback(joySignal: bool)
      modifies this`driveMode
      ensures joySignal ==> driveMode == Toggled(old(driveMode))
      ensures !joySignal ==> driveMode == old(driveMode)
      ensures robotState == old(robotState)
    {
      if joySignal {
        driveMode := Toggled(driveMode);
      }
    }

    /** true -> KILL from anywhere; false -> STARTUP, but only from KILL. */
    method KillCallback(killSignal: bool)
      modifies this`robotState
      ensures killSignal ==> robotState == Kill
      ensures !killSignal && old(robotState) == Kill ==> robotState == Startup
      ensures !killSignal && old(robotState) != Kill ==> robotState == old(robotState)
      ensures driveMode == old(driveMode)
    {
      if killSignal {
        robotState := Kill;
      } else if robotState == Kill {
        robotState := Startup;
      }
    }

    /** true -> PAUSE from anywhere; false -> READY, but only from PAUSE. */
    method PauseCallback(pauseSignal: bool)
      modifies this`robotState
      ensures pauseSignal ==> robotState == Pause
      ensures !pauseSignal && old(robotState) == Pause ==> robotState == Ready
      ensures !pauseSignal && old(robotState) != Pause ==> robotState == old(robotState)
      ensures driveMode == old(driveMode)
    {
      if pauseSignal {
        robotState := Pause;
      } else if robotState == Pause {
        robotState := Ready;
      }
    }
  }

  /** Kill followed by one tick: KILL and MANUAL, whatever the mode was. */
  method KillThenTick(n: RobotControllerNode) returns (status: Status)
    modifies n
    ensures n.robotState == Kill && n.driveMode == Manual
    ensures status == Status(Kill, Manual) && n.published == old(n.published) + [status]
  {
    n.KillCallback(true);
    status := n.Update();
  }

  /** Unkill followed by one tick goes KILL -> STARTUP -> READY and keeps the
      drive mode. */
  method UnkillThenTick(n: RobotControllerNode) returns (status: Status)
    requires n.robotState == Kill
    modifies n
    ensures n.robotState == Ready && n.driveMode == old(n.driveMode)
    ensures status == Status(Ready, old(n.driveMode))
    ensures n.published == old(n.published) + [status]
  {
    n.KillCallback(false);
    status := n.Update();
  }

  /** READY, pause, unpause: back in READY, the mode untouched. */
  method PauseRoundTrip(n: RobotControllerNode)
    requires n.robotState == Ready
    modifies n
    ensures n.robotState == Ready && n.driveMode == old(n.driveMode)
    ensures n.published == old(n.published)
  {
    n.PauseCallback(true);
    n.PauseCallback(false);
  }

  /** Pausing and unpausing from any state ends in READY, not in the state
      the robot was paused from. */
  method PauseThenUnpause(n: RobotControllerNode)
    modifies n`robotState
    ensures n.robotState == Ready && n.driveMode == old(n.driveMode)
  {
    n.PauseCallback(true);
    n.PauseCallback(false);
  }

  /** Two true joystick messages restore the original drive mode. */
  method ToggleTwice(n: RobotControllerNode)
    modifies n`driveMode
    ensures n.driveMode == old(n.driveMode) && n.robotState == old(n.robotState)
  {
    n.JoystickCallback(true);
    n.JoystickCallback(true);
    ToggledTwice(old(n.driveMode));
  }

  /** Heartbeat: two ticks in a steady state publish the same pair twice. */
  method SteadyTicks(n: RobotControllerNode) returns (first: Status, second: Status)
    requires n.robotState == Ready || n.robotState == Pause
    modifies n
    ensures first == second == Status(old(n.robotState), old(n.driveMode))
    ensures n.robotState == old(n.robotState) && n.driveMode == old(n.driveMode)
    ensures n.published == old(n.published) + [first, second]
  {
    first := n.Update();
    second := n.Update();
  }
}
