/** The result record the A* plugin's `Seeker.StartPath` hands to its
    completion callback. The search itself belongs to the plugin and is not
    part of this model. */
module Pathfinding {
  import opened Geometry

  /** `Path.error` and `Path.vectorPath`: a failed search, or the waypoints
      of the route in order. */
  datatype Path = Path(error: bool, vectorPath: seq<Vec3>)

  /** The request `seeker.StartPath(from, to, callback)` sends to the plugin. */
  datatype RouteRequest = RouteRequest(from: Vec3, to: Vec3)
}
