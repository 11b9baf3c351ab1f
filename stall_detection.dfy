/** The sliding-window stall/slip detector of include/stallDetectionHeader.h.

    The pure part (the per-axis extreme finders and the stall condition) is
    written as functions over the window; the class StallDetection keeps the
    window and the verdict as fields that its methods update in place. */
module StallDetector {
  import opened GeometryMsgs

  /** The one way an extreme query can fail: the window is empty. */
  datatype WindowError = EmptyWindow

  datatype Result<T> = Success(value: T) | Failure(error: WindowError)

  /** A boost ptime: either not_a_date_time (what a default-constructed ptime
      holds) or an instant supplied by the caller. */
  datatype PTime = NotADateTime | At(instant: int)

  /** The three coordinates of a pose the finders can be asked about. */
  datatype Axis = X | Y | Theta

  function Coord(p: Pose2D, a: Axis): real
  {
    match a
    case X => p.x
    case Y => p.y
    case Theta => p.theta
  }

  /** m is the smallest a-coordinate in h, and some pose of h has it. */
  ghost predicate IsLeast(h: seq<Pose2D>, a: Axis, m: real)
  {
    (exists i :: 0 <= i < |h| && Coord(h[i], a) == m) &&
    (forall i :: 0 <= i < |h| ==> m <= Coord(h[i], a))
  }

  /** m is the largest a-coordinate in h, and some pose of h has it. */
  ghost predicate IsGreatest(h: seq<Pose2D>, a: Axis, m: real)
  {
    (exists i :: 0 <= i < |h| && Coord(h[i], a) == m) &&
    (forall i :: 0 <= i < |h| ==> Coord(h[i], a) <= m)
  }

  /** The value std::min_element finds on a non-empty window. */
  function Least(h: seq<Pose2D>, a: Axis): (m: real)
    requires |h| > 0
    ensures IsLeast(h, a, m)
  {
    if |h| == 1 then Coord(h[0], a)
    else
      var rest := Least(h[1..], a);
      assert forall i :: 1 <= i < |h| ==> h[1..][i - 1] == h[i];
      if Coord(h[0], a) <= rest then Coord(h[0], a) else rest
  }

  /** The value std::max_element finds on a non-empty window. */
  function Greatest(h: seq<Pose2D>, a: Axis): (m: real)
    requires |h| > 0
    ensures IsGreatest(h, a, m)
  {
    if |h| == 1 then Coord(h[0], a)
    else
      var rest := Greatest(h[1..], a);
      assert forall i :: 1 <= i < |h| ==> h[1..][i - 1] == h[i];
      if rest < Coord(h[0], a) then Coord(h[0], a) else rest
  }

  /** findMinElement: "x" and "y" take the minimum, "theta" (as written)
      takes the MAXIMUM, any other request gives 0.0. */
  function FindMinElement(h: seq<Pose2D>, returnType: string): (r: Result<real>)
    ensures returnType == "x" ==> (r.Success? <==> h != []) && (h != [] ==> IsLeast(h, X, r.value))
    ensures returnType == "y" ==> (r.Success? <==> h != []) && (h != [] ==> IsLeast(h, Y, r.value))
    ensures returnType == "theta" ==> (r.Success? <==> h != []) && (h != [] ==> IsGreatest(h, Theta, r.value))
    ensures returnType != "x" && returnType != "y" && returnType != "theta" ==> r == Success(0.0)
  {
    if returnType == "x" then
      if h == [] then Failure(EmptyWindow) else Success(Least(h, X))
    else if returnType == "y" then
      if h == [] then Failure(EmptyWindow) else Success(Least(h, Y))
    else if returnType == "theta" then
      if h == [] then Failure(EmptyWindow) else Success(Greatest(h, Theta))
    else
      Success(0.0)
  }

  /** findMaxElement: the maximum for "x", "y" and "theta", 0.0 otherwise. */
  function FindMaxElement(h: seq<Pose2D>, returnType: string): (r: Result<real>)
    ensures returnType == "x" ==> (r.Success? <==> h != []) && (h != [] ==> IsGreatest(h, X, r.value))
    ensures returnType == "y" ==> (r.Success? <==> h != []) && (h != [] ==> IsGreatest(h, Y, r.value))
    ensures returnType == "theta" ==> (r.Success? <==> h != []) && (h != [] ==> IsGreatest(h, Theta, r.value))
    ensures returnType != "x" && returnType != "y" && returnType != "theta" ==> r == Success(0.0)
  {
    if returnType == "x" then
      if h == [] then Failure(EmptyWindow) else Success(Greatest(h, X))
    else if returnType == "y" then
      if h == [] then Failure(EmptyWindow) else Success(Greatest(h, Y))
    else if returnType == "theta" then
      if h == [] then Failure(EmptyWindow) else Success(Greatest(h, Theta))
    else
      Success(0.0)
  }

  /** pow(v, 2) */
  function Sq(v: real): real
  {
    v * v
  }

  /** The stall condition as the source writes it. C++ binds && tighter
      than ||, so an angular mismatch on its own makes it true, whatever the
      window, the tolerances and the emergency stop; without one, a stall
      needs the emergency stop, a linear-x mismatch and a positive rotation
      tolerance (the heading spread is always 0). */
  function StallCondition(w: seq<Pose2D>, noMovementTolerance: real, noRotationTolerance: real,
                          eStopStatus: bool, expected: Twist, actual: Twist): (stalled: bool)
    requires w != []
    ensures expected.angular.z != actual.angular.z ==> stalled
    ensures stalled && expected.angular.z == actual.angular.z ==>
              eStopStatus && expected.linear.x != actual.linear.x && 0.0 < noRotationTolerance
  {
    var minX := FindMinElement(w, "x").value;
    var maxX := FindMaxElement(w, "x").value;
    var minY := FindMinElement(w, "y").value;
    var maxY := FindMaxElement(w, "y").value;
    var minHeading := FindMinElement(w, "theta").value;
    var maxHeading := FindMaxElement(w, "theta").value;
    (Sq(maxX - minX) + Sq(maxY - minY) < noMovementTolerance
     && maxHeading - minHeading < noRotationTolerance
     && eStopStatus
     && expected.linear.x != actual.linear.x)
    || expected.angular.z != actual.angular.z
  }

  /** How far the a-coordinates of the window range. */
  function Range(w: seq<Pose2D>, a: Axis): real
    requires w != []
  {
    Greatest(w, a) - Least(w, a)
  }

  /** Sum of the squared x and y ranges of the window (not a distance). */
  function SquaredSpread(w: seq<Pose2D>): real
    requires w != []
  {
    Sq(Range(w, X)) + Sq(Range(w, Y))
  }

  /** Every pose of w has the same a-coordinate. */
  ghost predicate ConstantOn(w: seq<Pose2D>, a: Axis)
  {
    forall i, j :: 0 <= i < |w| && 0 <= j < |w| ==> Coord(w[i], a) == Coord(w[j], a)
  }

  /** Every pose of w has the same x and the same y. */
  ghost predicate Stationary(w: seq<Pose2D>)
  {
    ConstantOn(w, X) && ConstantOn(w, Y)
  }

  /** The window after addVelocityToHistory has pushed p: the front pose is
      dropped only when the window already holds MORE than queueSize poses. */
  function Slide(h: seq<Pose2D>, queueSize: nat, p: Pose2D): (r: seq<Pose2D>)
    ensures |r| > 0 && r[|r| - 1] == p
    ensures |h| > queueSize ==> |r| == |h|
    ensures |h| <= queueSize ==> |r| == |h| + 1
    ensures r[..|r| - 1] == h[|h| - (|r| - 1)..]
    ensures |h| <= queueSize + 1 ==> |r| <= queueSize + 1
  {
    (if |h| > queueSize then h[1..] else h) + [p]
  }

  /** Because findMinElement("theta") is a maximum, the heading spread the
      condition compares against noRotationTolerance is always zero. */
  lemma HeadingSpreadIsZero(w: seq<Pose2D>)
    requires w != []
    ensures FindMaxElement(w, "theta").value - FindMinElement(w, "theta").value == 0.0
  {
  }

  /** Without an angular mismatch all four conjuncts are needed; the heading
      conjunct reduces to 0 < noRotationTolerance. */
  lemma ConditionWithoutAngularMismatch(w: seq<Pose2D>, noMovementTolerance: real, noRotationTolerance: real,
                                        eStopStatus: bool, expected: Twist, actual: Twist)
    requires w != []
    requires expected.angular.z == actual.angular.z
    ensures StallCondition(w, noMovementTolerance, noRotationTolerance, eStopStatus, expected, actual)
            <==> (SquaredSpread(w) < noMovementTolerance && 0.0 < noRotationTolerance
                  && eStopStatus && expected.linear.x != actual.linear.x)
  {
  }

  lemma PositiveSquare(a: real)
    requires a > 0.0
    ensures Sq(a) > 0.0
  {
    calc {
      Sq(a);
      a * a;
    >  { assert a * a > 0.0 * a; }
      0.0;
    }
  }

  lemma SquaresVanish(a: real, b: real)
    requires a >= 0.0 && b >= 0.0
    ensures Sq(a) + Sq(b) >= 0.0
    ensures Sq(a) + Sq(b) == 0.0 <==> a == 0.0 && b == 0.0
  {
    if a > 0.0 { PositiveSquare(a); }
    if b > 0.0 { PositiveSquare(b); }
  }

  /** The range of one axis is zero exactly when every pose agrees on it. */
  lemma RangeZeroIffConstant(w: seq<Pose2D>, a: Axis)
    requires w != []
    ensures Range(w, a) >= 0.0
    ensures Range(w, a) == 0.0 <==> ConstantOn(w, a)
  {
    var lo, hi := Least(w, a), Greatest(w, a);
    assert lo <= Coord(w[0], a) <= hi;
    if ConstantOn(w, a) {
      var i :| 0 <= i < |w| && Coord(w[i], a) == lo;
      var j :| 0 <= j < |w| && Coord(w[j], a) == hi;
      assert Coord(w[i], a) == Coord(w[j], a);
    }
  }

  /** The spread is never negative, and it is zero exactly when the robot
      has not moved across the window. */
  lemma SpreadZeroIffStationary(w: seq<Pose2D>)
    requires w != []
    ensures SquaredSpread(w) >= 0.0
    ensures SquaredSpread(w) == 0.0 <==> Stationary(w)
  {
    RangeZeroIffConstant(w, X);
    RangeZeroIffConstant(w, Y);
    SquaresVanish(Range(w, X), Range(w, Y));
  }

  /** A robot that has not moved over the window, with the emergency stop
      engaged and the commanded and measured linear velocities disagreeing,
      is reported stuck (for positive tolerances). */
  lemma StuckRobotIsDetected(w: seq<Pose2D>, noMovementTolerance: real, noRotationTolerance: real,
                             expected: Twist, actual: Twist)
    requires w != [] && Stationary(w)
    requires noMovementTolerance > 0.0 && noRotationTolerance > 0.0
    requires expected.linear.x != actual.linear.x
    ensures StallCondition(w, noMovementTolerance, noRotationTolerance, true, expected, actual)
  {
    SpreadZeroIffStationary(w);
  }

  /** Configuration defaults the node reads from the parameter server. */
  const DefaultQueueSize: nat := 100
  const DefaultNoMovementTolerance: real := 0.1
  const DefaultNoRotationTolerance: real := 5.0
  const DefaultReverseSpeed: real := -0.5
  const DefaultMaxSpeed: real := 0.7
  const DefaultReverseDuration: real := 0.7

  class StallDetection {
    const queueSize: nat
    const noMovementTolerance: real
    const noRotationTolerance: real
    const reverseSpeed: real
    const maxSpeed: real
    const reverseDurationInMilli: real

    var robotVelocityHistory: seq<Pose2D>
    var eStopStatus: bool
    var actualVelocity: Twist
    var expectedVelocity: Twist
    var stuckTime: PTime
    var stallDetected: bool

    /** The window never holds more than one pose beyond queueSize. */
    ghost predicate Valid()
      reads this
    {
      |robotVelocityHistory| <= queueSize + 1
    }

    /** The configuration is passed in; eStopStatus, which the source never
        initialises, is passed in as well. */
    constructor (queueSize: nat, noMovementTolerance: real, noRotationTolerance: real,
                 reverseSpeed: real, maxSpeed: real, reverseDurationInMilli: real, eStopStatus: bool)
      ensures this.queueSize == queueSize && this.noMovementTolerance == noMovementTolerance
      ensures this.noRotationTolerance == noRotationTolerance && this.reverseSpeed == reverseSpeed
      ensures this.maxSpeed == maxSpeed && this.reverseDurationInMilli == reverseDurationInMilli
      ensures this.eStopStatus == eStopStatus
      ensures expectedVelocity == ZeroTwist && actualVelocity == ZeroTwist
      ensures !stallDetected && stuckTime == NotADateTime
      ensures robotVelocityHistory == seq(queueSize, i => ZeroPose)
      ensures Valid()
    {
      this.queueSize := queueSize;
      this.noMovementTolerance := noMovementTolerance;
      this.noRotationTolerance := noRotationTolerance;
      this.reverseSpeed := reverseSpeed;
      this.maxSpeed := maxSpeed;
      this.reverseDurationInMilli := reverseDurationInMilli;
      this.eStopStatus := eStopStatus;
      expectedVelocity := ZeroTwist;
      actualVelocity := ZeroTwist;
      stuckTime := NotADateTime;
      stallDetected := false;
      robotVelocityHistory := seq(queueSize, i => ZeroPose);
    }

    function GetStallStatus(): bool
      reads this
    {
      stallDetected
    }

    function GetReverseDurationInMilli(): real
    {
      reverseDurationInMilli
    }

    function GetExpectedVelocity(): real
      reads this
    {
      expectedVelocity.linear.x
    }

    function GetMaxSpeed(): real
    {
      maxSpeed
    }

    function GetReverseSpeed(): real
    {
      reverseSpeed
    }

    function GetLastStuckTime(): PTime
      reads this
    {
      stuckTime
    }

    /** The state activateStallDetection leaves after evaluating window w,
        when stuckTime held t0 before and the clock read now. */
    ghost predicate Evaluated(w: seq<Pose2D>, t0: PTime, now: int)
      requires w != []
      reads this
    {
      if StallCondition(w, noMovementTolerance, noRotationTolerance, eStopStatus, expectedVelocity, actualVelocity)
      then stallDetected && stuckTime == At(now) && robotVelocityHistory == []
      else !stallDetected && stuckTime == t0 && robotVelocityHistory == w
    }

    /** The state addVelocityToHistory leaves after pushing p onto h0, when
        the verdict was d0 and stuckTime was t0: the window is evaluated
        only once it holds at least queueSize poses. */
    ghost predicate Added(h0: seq<Pose2D>, d0: bool, t0: PTime, p: Pose2D, now: int)
      reads this
    {
      var w := Slide(h0, queueSize, p);
      if |w| >= queueSize then Evaluated(w, t0, now)
      else robotVelocityHistory == w && stallDetected == d0 && stuckTime == t0
    }

    method ActivateStallDetection(now: int)
      requires robotVelocityHistory != []
      modifies this`stallDetected, this`stuckTime, this`robotVelocityHistory
      ensures Evaluated(old(robotVelocityHistory), old(stuckTime), now)
      ensures old(Valid()) ==> Valid()
    {
      var stalled := StallCondition(robotVelocityHistory, noMovementTolerance, noRotationTolerance,
                                    eStopStatus, expectedVelocity, actualVelocity);
      if stalled {
        stallDetected := true;
        stuckTime := At(now);
        robotVelocityHistory := [];
      } else {
        stallDetected := false;
      }
    }

    method AddVelocityToHistory(robotCurrentVelocity: Pose2D, now: int)
      modifies this`stallDetected, this`stuckTime, this`robotVelocityHistory
      ensures Added(old(robotVelocityHistory), old(stallDetected), old(stuckTime), robotCurrentVelocity, now)
      ensures old(Valid()) ==> Valid()
    {
      if |robotVelocityHistory| > queueSize {
        robotVelocityHistory := robotVelocityHistory[1..];
      }
      robotVelocityHistory := robotVelocityHistory + [robotCurrentVelocity];

      if |robotVelocityHistory| >= queueSize {
        ActivateStallDetection(now);
      }
    }

    method RobotPositionCallback(robotLocation: Pose2D, now: int)
      modifies this`stallDetected, this`stuckTime, this`robotVelocityHistory
      ensures Added(old(robotVelocityHistory), old(stallDetected), old(stuckTime), robotLocation, now)
      ensures old(Valid()) ==> Valid()
    {
      AddVelocityToHistory(robotLocation, now);
    }

    /** The source's handler body is empty: the flag is never updated. */
    method EStopStatusCallback(gpio: bool)
      ensures eStopStatus == old(eStopStatus)
    {
    }

    method ExpectedRobotVelocityCallback(velocity: Twist)
      modifies this`expectedVelocity
      ensures expectedVelocity == velocity
    {
      expectedVelocity := velocity;
    }

    method ActualRobotVelocityCallback(velocity: Twist)
      modifies this`actualVelocity
      ensures actualVelocity == velocity
    {
      actualVelocity := velocity;
    }

    /** doBackup: the command becomes a straight reverse at maxSpeed scaled
        by reverseSpeed; every other component is left as the caller had it. */
    method DoBackup(stallVelocity: Twist) returns (r: Twist)
      ensures r.linear.x == maxSpeed * reverseSpeed && r.angular.z == 0.0
      ensures r.linear.y == stallVelocity.linear.y && r.linear.z == stallVelocity.linear.z
      ensures r.angular.x == stallVelocity.angular.x && r.angular.y == stallVelocity.angular.y
      ensures maxSpeed > 0.0 && reverseSpeed < 0.0 ==> r.linear.x < 0.0
    {
      var reverseSpeed := GetMaxSpeed() * GetReverseSpeed();
      r := stallVelocity.(linear := stallVelocity.linear.(x := reverseSpeed),
                          angular := stallVelocity.angular.(z := 0.0));
    }
  }

  /** A new detector already holds queueSize poses, so the very first
      sample is evaluated, on a window of queueSize + 1 poses. */
  method FirstSampleEvaluates(d: StallDetection, p: Pose2D, now: int)
    requires |d.robotVelocityHistory| == d.queueSize
    modifies d`stallDetected, d`stuckTime, d`robotVelocityHistory
    ensures d.Evaluated(old(d.robotVelocityHistory) + [p], old(d.stuckTime), now)
    ensures !d.stallDetected ==> |d.robotVelocityHistory| == d.queueSize + 1
  {
    assert Slide(d.robotVelocityHistory, d.queueSize, p) == d.robotVelocityHistory + [p];
    d.AddVelocityToHistory(p, now);
  }

  /** After a stall has emptied the window, up to queueSize - 1 further
      samples are only collected; none of them is evaluated, so the
      verdict and its time stay as the stall left them. */
  method RefillWithoutEvaluation(d: StallDetection, ps: seq<Pose2D>, now: int)
    requires d.robotVelocityHistory == [] && |ps| < d.queueSize
    modifies d`stallDetected, d`stuckTime, d`robotVelocityHistory
    ensures d.robotVelocityHistory == ps
    ensures d.stallDetected == old(d.stallDetected) && d.stuckTime == old(d.stuckTime)
  {
    var i := 0;
    while i < |ps|
      invariant 0 <= i <= |ps|
      invariant d.robotVelocityHistory == ps[..i]
      invariant d.stallDetected == old(d.stallDetected) && d.stuckTime == old(d.stuckTime)
    {
      assert Slide(ps[..i], d.queueSize, ps[i]) == ps[..i + 1];
      d.AddVelocityToHistory(ps[i], now);
      i := i + 1;
    }
    assert ps[..i] == ps;
  }

  /** With the default configuration the backup command is a 0.35 reverse. */
  method DefaultBackup(stallVelocity: Twist) returns (r: Twist)
    ensures r.linear.x == -0.35 && r.angular.z == 0.0
    ensures r.linear.y == stallVelocity.linear.y && r.angular.x == stallVelocity.angular.x
  {
    var d := new StallDetection(DefaultQueueSize, DefaultNoMovementTolerance, DefaultNoRotationTolerance,
                                DefaultReverseSpeed, DefaultMaxSpeed, DefaultReverseDuration, false);
    r := d.DoBackup(stallVelocity);
  }
}
