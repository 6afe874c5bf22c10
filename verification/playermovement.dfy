/** One unit's mover (`PlayerMovement`): it records a target and asks the
    pathfinding plugin for a route, takes the route when the plugin calls
    back, and each frame walks toward the current waypoint, snapping onto it
    when it is within this frame's step. */
module PlayerMovement {
  import opened Common
  import opened Geometry
  import opened Pathfinding

  /** The component's state. `path` holds the waypoints of the last route
      the plugin delivered (null before the first); `hasIndicator` says
      whether a target-indicator object currently exists, and
      `hasIndicatorPrefab` whether a prefab to create one is assigned. */
  datatype Mover = Mover(position: Vec3, moveSpeed: real,
                         path: Option<seq<Vec3>>, currentWaypoint: nat, isMoving: bool,
                         currentTargetPosition: Vec3,
                         hasIndicatorPrefab: bool, hasIndicator: bool)

  /** The waypoint index never runs past the end of the route. */
  predicate Valid(m: Mover)
  {
    m.path.Some? ==> m.currentWaypoint <= |m.path.value|
  }

  /** A freshly spawned unit: standing still, with no route. */
  function Spawn(position: Vec3, moveSpeed: real, hasIndicatorPrefab: bool): (m: Mover)
    ensures Valid(m) && !m.isMoving && m.path.None? && m.currentWaypoint == 0 && !m.hasIndicator
    ensures m.position == position && m.moveSpeed == moveSpeed
    ensures m.hasIndicatorPrefab == hasIndicatorPrefab
  {
    Mover(position, moveSpeed, None, 0, false, Origin, hasIndicatorPrefab, false)
  }

  /** The new state and the route request `seeker.StartPath` sends. */
  datatype Retarget = Retarget(mover: Mover, request: RouteRequest)

  /** `SetTarget`: clamps the target to the z = 0 plane, records it, replaces
      the indicator, and requests a route from the current position. It does
      not stop or replace the route being followed: that happens only when a
      callback arrives. */
  function SetTarget(m: Mover, target: Vec3): (r: Retarget)
    ensures r.mover.currentTargetPosition.z == 0.0
    ensures r.mover.currentTargetPosition.x == target.x && r.mover.currentTargetPosition.y == target.y
    ensures r.request == RouteRequest(m.position, r.mover.currentTargetPosition)
    ensures r.mover.hasIndicator == m.hasIndicatorPrefab
    ensures && r.mover.path == m.path && r.mover.currentWaypoint == m.currentWaypoint
            && r.mover.isMoving == m.isMoving && r.mover.position == m.position
            && r.mover.moveSpeed == m.moveSpeed && r.mover.hasIndicatorPrefab == m.hasIndicatorPrefab
  {
    var clamped := Flatten(target);
    Retarget(m.(currentTargetPosition := clamped, hasIndicator := m.hasIndicatorPrefab),
             RouteRequest(m.position, clamped))
  }

  /** `OnPathComplete`: a route without error is taken from its first
      waypoint and the unit starts moving; an error changes nothing (it is
      only logged). Callbacks are not matched to requests, so a late
      callback for an earlier target is taken like any other. */
  function OnPathComplete(m: Mover, p: Path): (r: Mover)
    ensures !p.error ==> r.path == Some(p.vectorPath) && r.currentWaypoint == 0 && r.isMoving
    ensures !p.error ==> r.position == m.position && r.currentTargetPosition == m.currentTargetPosition
    ensures !p.error ==> && r.moveSpeed == m.moveSpeed && r.hasIndicator == m.hasIndicator
                         && r.hasIndicatorPrefab == m.hasIndicatorPrefab
    ensures p.error ==> r == m
    ensures Valid(m) ==> Valid(r)
  {
    if !p.error then m.(path := Some(p.vectorPath), currentWaypoint := 0, isMoving := true)
    else m
  }

  /** `FollowPath`: at the end of the route the unit stops where it is and
      the indicator is removed; otherwise it snaps onto the current waypoint
      (clamped to z = 0) and moves on to the next one if the waypoint is
      within `moveSpeed * deltaTime`, and steps that far toward it if not. */
  function FollowPath(m: Mover, deltaTime: real, metric: Metric): (r: Mover)
    ensures r.path == m.path && r.moveSpeed == m.moveSpeed
    ensures r.currentTargetPosition == m.currentTargetPosition && r.hasIndicatorPrefab == m.hasIndicatorPrefab
    ensures r.currentWaypoint == m.currentWaypoint || r.currentWaypoint == m.currentWaypoint + 1
    ensures Valid(m) ==> Valid(r)
    ensures (m.path.None? || m.currentWaypoint >= |m.path.value|) ==>
      && !r.isMoving && !r.hasIndicator
      && r.position == m.position && r.currentWaypoint == m.currentWaypoint
    ensures m.path.Some? && m.currentWaypoint < |m.path.value| ==>
      var w := Flatten(m.path.value[m.currentWaypoint]);
      var step := m.moveSpeed * deltaTime;
      && r.isMoving == m.isMoving && r.hasIndicator == m.hasIndicator
      && (r.currentWaypoint == m.currentWaypoint + 1 <==> metric.distance(m.position, w) <= step)
      && (r.currentWaypoint == m.currentWaypoint + 1 ==> r.position == w)
      && (r.currentWaypoint == m.currentWaypoint ==> r.position == StepToward(metric, m.position, w, step))
  {
    if m.path.None? || m.currentWaypoint >= |m.path.value| then
      m.(isMoving := false, hasIndicator := false)
    else
      var waypoint := Flatten(m.path.value[m.currentWaypoint]);
      var distanceThisFrame := m.moveSpeed * deltaTime;
      if metric.distance(m.position, waypoint) <= distanceThisFrame then
        m.(position := waypoint, currentWaypoint := m.currentWaypoint + 1)
      else
        m.(position := StepToward(metric, m.position, waypoint, distanceThisFrame))
  }

  /** `Update`: the route is followed only while moving and when a route
      exists; otherwise the frame changes nothing. */
  function Update(m: Mover, deltaTime: real, metric: Metric): (r: Mover)
    ensures !(m.isMoving && m.path.Some?) ==> r == m
    ensures m.isMoving && m.path.Some? ==> r == FollowPath(m, deltaTime, metric)
  {
    if m.isMoving && m.path.Some? then FollowPath(m, deltaTime, metric) else m
  }

  /** With a distance and normalisation that behave like Euclidean ones, a
      frame never carries the unit past its waypoint: the distance left is
      the previous distance less the step, or zero once the step covers it. */
  lemma NoOvershoot(m: Mover, deltaTime: real, metric: Metric)
    requires StraightLine(metric)
    requires m.isMoving && m.path.Some? && m.currentWaypoint < |m.path.value|
    requires m.moveSpeed * deltaTime >= 0.0
    ensures var w := Flatten(m.path.value[m.currentWaypoint]);
            metric.distance(Update(m, deltaTime, metric).position, w)
              == Max(0.0, metric.distance(m.position, w) - m.moveSpeed * deltaTime)
  {
  }

  /** While a route is being followed, a new target does not interrupt it:
      the next frame moves the unit exactly as it would have without the new
      target. */
  lemma RetargetDoesNotInterrupt(m: Mover, target: Vec3, deltaTime: real, metric: Metric)
    ensures var a := Update(SetTarget(m, target).mover, deltaTime, metric);
            var b := Update(m, deltaTime, metric);
            a.position == b.position && a.path == b.path
            && a.currentWaypoint == b.currentWaypoint && a.isMoving == b.isMoving
  {
  }

  // ---------------------------------------------------------------- facing

  /** The eight sector tests of `GetDirectionIndex`, in the order they are
      tried (angles in degrees). */
  predicate Sector(k: nat, angle: real)
    requires k < 8
  {
    match k
    case 0 => -22.5 <= angle < 22.5
    case 1 => 22.5 <= angle < 67.5
    case 2 => 67.5 <= angle < 112.5
    case 3 => 112.5 <= angle < 157.5
    case 4 => (157.5 <= angle <= 180.0) || (-180.0 <= angle < -157.5)
    case 5 => -157.5 <= angle < -112.5
    case 6 => -112.5 <= angle < -67.5
    case _ => -67.5 <= angle < -22.5
  }

  /** The animation index each sector yields: east 6, north-east 5, north 4,
      north-west 3, west 2, south-west 1, south 0, south-east 7. */
  const SectorIndex: seq<int> := [6, 5, 4, 3, 2, 1, 0, 7]

  /** The sector tests of `GetDirectionIndex`, first match wins, south (0)
      when none matches. */
  function DirectionIndex(angle: real): (r: int)
    ensures 0 <= r < 8
  {
    if Sector(0, angle) then SectorIndex[0]
    else if Sector(1, angle) then SectorIndex[1]
    else if Sector(2, angle) then SectorIndex[2]
    else if Sector(3, angle) then SectorIndex[3]
    else if Sector(4, angle) then SectorIndex[4]
    else if Sector(5, angle) then SectorIndex[5]
    else if Sector(6, angle) then SectorIndex[6]
    else if Sector(7, angle) then SectorIndex[7]
    else 0
  }

  /** `GetDirectionIndex`: the facing of a movement direction, from its
      heading in degrees. */
  function GetDirectionIndex(direction: Vec3, metric: Metric): (r: int)
    ensures 0 <= r < 8
  {
    DirectionIndex(metric.heading(direction))
  }

  /** No angle passes two sector tests, so the order of the tests does not
      matter. */
  lemma SectorsDisjoint(angle: real, j: nat, k: nat)
    requires j < k < 8
    ensures !(Sector(j, angle) && Sector(k, angle))
  {
  }

  /** Some sector test passes exactly when the angle lies in [-180, 180]:
      the fall-through default is reached only outside that interval, which
      `Atan2` never returns. */
  lemma SectorsCover(angle: real)
    ensures (exists k :: 0 <= k < 8 && Sector(k, angle)) <==> -180.0 <= angle <= 180.0
  {
    if -180.0 <= angle <= 180.0 {
      var k := if angle < -157.5 then 4
               else if angle < -112.5 then 5
               else if angle < -67.5 then 6
               else if angle < -22.5 then 7
               else if angle < 22.5 then 0
               else if angle < 67.5 then 1
               else if angle < 112.5 then 2
               else if angle < 157.5 then 3
               else 4;
      assert Sector(k, angle);
    }
  }

  /** An angle in a sector gets that sector's index. */
  lemma DirectionIndexOfSector(angle: real, k: nat)
    requires k < 8 && Sector(k, angle)
    ensures DirectionIndex(angle) == SectorIndex[k]
  {
  }

  /** The compass reading of the index: counting 45-degree sectors
      counter-clockwise from the one centred on east, sector `n` gets index
      `(6 - n) mod 8`, for every angle in [-180, 180]. */
  lemma DirectionIndexIsCompassSector(angle: real)
    requires -180.0 <= angle <= 180.0
    ensures DirectionIndex(angle) == (6 - ((angle + 22.5) / 45.0).Floor) % 8
  {
  }

  // ---------------------------------------------------------------- runs

  /** The events a mover reacts to: a new target, a plugin callback, and a
      frame of the given length. */
  datatype Event = Target(point: Vec3) | Resolved(result: Path) | Tick(deltaTime: real)

  function Apply(m: Mover, e: Event, metric: Metric): Mover
  {
    match e
    case Target(point) => SetTarget(m, point).mover
    case Resolved(result) => OnPathComplete(m, result)
    case Tick(deltaTime) => Update(m, deltaTime, metric)
  }

  function Run(m: Mover, events: seq<Event>, metric: Metric): Mover
    decreases |events|
  {
    if |events| == 0 then m else Run(Apply(m, events[0], metric), events[1..], metric)
  }

  /** Whatever targets, callbacks and frames arrive, the waypoint index
      stays within the route. */
  lemma {:induction false} RunStaysValid(m: Mover, events: seq<Event>, metric: Metric)
    requires Valid(m)
    ensures Valid(Run(m, events, metric))
    decreases |events|
  {
    if |events| > 0 {
      var m1 := Apply(m, events[0], metric);
      assert Valid(m1);
      RunStaysValid(m1, events[1..], metric);
    }
  }

  /** Over frames alone (no new route), the route is kept and the waypoint
      index never decreases and rises by at most one per frame. */
  lemma {:induction false} FramesAdvanceOneAtATime(m: Mover, events: seq<Event>, metric: Metric)
    requires forall i :: 0 <= i < |events| ==> events[i].Tick?
    ensures var r := Run(m, events, metric);
            && r.path == m.path
            && m.currentWaypoint <= r.currentWaypoint <= m.currentWaypoint + |events|
    decreases |events|
  {
    if |events| > 0 {
      var m1 := Apply(m, events[0], metric);
      assert m1.path == m.path;
      assert m.currentWaypoint <= m1.currentWaypoint <= m.currentWaypoint + 1;
      FramesAdvanceOneAtATime(m1, events[1..], metric);
    }
  }
}
