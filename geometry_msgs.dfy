/** The ROS geometry message types the stall detector works on, with real
    numbers in place of doubles. A default-constructed ROS message is all
    zeros, which the Zero constants stand for. */
module GeometryMsgs {

  /** geometry_msgs/Pose2D: a planar pose. */
  datatype Pose2D = Pose2D(x: real, y: real, theta: real)

  /** geometry_msgs/Vector3. */
  datatype Vector3 = Vector3(x: real, y: real, z: real)

  /** geometry_msgs/Twist: a linear and an angular velocity. */
  datatype Twist = Twist(linear: Vector3, angular: Vector3)

  const ZeroPose := Pose2D(0.0, 0.0, 0.0)
  const ZeroVector := Vector3(0.0, 0.0, 0.0)
  const ZeroTwist := Twist(ZeroVector, ZeroVector)
}
