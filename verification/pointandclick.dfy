/** The earlier single-unit follower (`PointAndClickPathfinding`): the same
    route callback as the squad mover, but each frame it always takes a full
    step toward the waypoint and moves on to the next waypoint only when the
    step ends within `nextWaypointDistance` of it. The mouse handling that
    starts a search is not part of this model. */
module PointAndClickPathfinding {
  import opened Common
  import opened Geometry
  import opened Pathfinding

  datatype Follower = Follower(position: Vec3, moveSpeed: real, nextWaypointDistance: real,
                               path: Option<seq<Vec3>>, currentWaypoint: nat, isMoving: bool)

  /** The waypoint index never runs past the end of the route. */
  predicate Valid(f: Follower)
  {
    f.path.Some? ==> f.currentWaypoint <= |f.path.value|
  }

  /** `OnPathComplete`: a route without error is taken from its first
      waypoint and the unit starts moving; an error changes nothing. */
  function OnPathComplete(f: Follower, p: Path): (r: Follower)
    ensures !p.error ==> r.path == Some(p.vectorPath) && r.currentWaypoint == 0 && r.isMoving
    ensures !p.error ==> && r.position == f.position && r.moveSpeed == f.moveSpeed
                         && r.nextWaypointDistance == f.nextWaypointDistance
    ensures p.error ==> r == f
    ensures Valid(f) ==> Valid(r)
  {
    if !p.error then f.(path := Some(p.vectorPath), currentWaypoint := 0, isMoving := true) else f
  }

  /** `FollowPath` (called only with a route): at the end of the route the
      unit stops where it is; otherwise it steps `moveSpeed * deltaTime`
      toward the waypoint, without clamping, and takes the next waypoint when
      it ends up strictly closer than `nextWaypointDistance`. */
  function FollowPath(f: Follower, deltaTime: real, metric: Metric): (r: Follower)
    requires f.path.Some?
    ensures r.path == f.path
    ensures r.moveSpeed == f.moveSpeed && r.nextWaypointDistance == f.nextWaypointDistance
    ensures r.currentWaypoint == f.currentWaypoint || r.currentWaypoint == f.currentWaypoint + 1
    ensures Valid(f) ==> Valid(r)
    ensures f.currentWaypoint >= |f.path.value| ==>
      !r.isMoving && r.position == f.position && r.currentWaypoint == f.currentWaypoint
    ensures f.currentWaypoint < |f.path.value| ==>
      var w := f.path.value[f.currentWaypoint];
      && r.isMoving == f.isMoving
      && r.position == StepToward(metric, f.position, w, f.moveSpeed * deltaTime)
      && (r.currentWaypoint == f.currentWaypoint + 1 <==> metric.distance(r.position, w) < f.nextWaypointDistance)
  {
    if f.currentWaypoint >= |f.path.value| then f.(isMoving := false)
    else
      var waypoint := f.path.value[f.currentWaypoint];
      var moved := Add(f.position, Scale(metric.normalized(Sub(waypoint, f.position)), f.moveSpeed * deltaTime));
      if metric.distance(moved, waypoint) < f.nextWaypointDistance then
        f.(position := moved, currentWaypoint := f.currentWaypoint + 1)
      else
        f.(position := moved)
  }

  /** `Update`'s follow gate: the route is followed only while moving and
      when a route exists. */
  function Update(f: Follower, deltaTime: real, metric: Metric): (r: Follower)
    ensures !(f.isMoving && f.path.Some?) ==> r == f
    ensures f.isMoving && f.path.Some? ==> r == FollowPath(f, deltaTime, metric)
    ensures Valid(f) ==> Valid(r)
    ensures f.currentWaypoint <= r.currentWaypoint <= f.currentWaypoint + 1
  {
    if f.isMoving && f.path.Some? then FollowPath(f, deltaTime, metric) else f
  }

  /** With a distance and normalisation that behave like Euclidean ones, the
      distance left after a frame is `|d - step|`: a step longer than the
      distance `d` carries the unit past the waypoint, by `step - d`. */
  lemma MayOvershoot(f: Follower, deltaTime: real, metric: Metric)
    requires StraightLine(metric)
    requires f.isMoving && f.path.Some? && f.currentWaypoint < |f.path.value|
    requires metric.distance(f.position, f.path.value[f.currentWaypoint]) > 0.0
    requires f.moveSpeed * deltaTime >= 0.0
    ensures var w := f.path.value[f.currentWaypoint];
            metric.distance(Update(f, deltaTime, metric).position, w)
              == Abs(metric.distance(f.position, w) - f.moveSpeed * deltaTime)
  {
  }

  /** Consequently an overshoot can leave the unit on the same waypoint: if
      the step passes the waypoint by at least `nextWaypointDistance`, the
      index does not advance and the next frame heads back. */
  lemma OvershootKeepsWaypoint(f: Follower, deltaTime: real, metric: Metric)
    requires StraightLine(metric)
    requires f.isMoving && f.path.Some? && f.currentWaypoint < |f.path.value|
    requires metric.distance(f.position, f.path.value[f.currentWaypoint]) > 0.0
    requires f.moveSpeed * deltaTime >= 0.0
    requires f.moveSpeed * deltaTime - metric.distance(f.position, f.path.value[f.currentWaypoint])
             >= f.nextWaypointDistance
    ensures Update(f, deltaTime, metric).currentWaypoint == f.currentWaypoint
  {
  }

  /** `nextWaypointDistance` has no initialiser, so it is 0 unless set in the
      Inspector; then the strict test `distance < 0` never passes and the
      unit never moves past its current waypoint, over any number of frames. */
  lemma {:induction false} UnsetWaypointDistanceNeverAdvances(f: Follower, deltaTimes: seq<real>, metric: Metric)
    requires NonNegative(metric)
    requires f.nextWaypointDistance == 0.0
    ensures Frames(f, deltaTimes, metric).currentWaypoint == f.currentWaypoint
    decreases |deltaTimes|
  {
    if |deltaTimes| > 0 {
      var f1 := Update(f, deltaTimes[0], metric);
      if f.isMoving && f.path.Some? && f.currentWaypoint < |f.path.value| {
        assert metric.distance(f1.position, f.path.value[f.currentWaypoint]) >= 0.0;
      }
      UnsetWaypointDistanceNeverAdvances(f1, deltaTimes[1..], metric);
    }
  }

  /** The follower after a run of frames of the given lengths. */
  function Frames(f: Follower, deltaTimes: seq<real>, metric: Metric): Follower
    decreases |deltaTimes|
  {
    if |deltaTimes| == 0 then f else Frames(Update(f, deltaTimes[0], metric), deltaTimes[1..], metric)
  }
}
