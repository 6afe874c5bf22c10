# Squad control of a 2D isometric RPG, as a Dafny model

The game is a set of Unity scripts: the player selects units with clicks
and drag boxes (all Player-tagged units start selected, and a drag box
selects every unit inside it), sends the first four selected units into a
fixed formation with a click on open ground, and each unit walks the
waypoints the A* pathfinding plugin returns. A melee enemy chases the nearest player and
strikes on a cooldown, and a sprite's draw order follows obstacle heights.

This project models the decision logic under that engine plumbing as
immutable records and pure per-frame and per-event step functions:

- `PlayerManager` (`playermanager.dfy`): pruning destroyed units from the
  selection, click selection, drag-box selection, the click-versus-drag gate
  on release, the leader/follower formation table and the generic
  `CalculateFollowerOffset` helper, and the whole per-frame `Update`.
- `PlayerMovement` (`playermovement.dfy`): `SetTarget`, the path callback,
  the per-frame advance with snap-to-waypoint and end-of-path stop, the
  8-way facing index, and runs of events.
- `PointAndClickPathfinding` (`pointandclick.dfy`): the older follower with
  a threshold-based advance and no snap.
- `EnemyBehavior` (`enemybehavior.dfy`): nearest-player search, the latching
  chase flag, move/attack/cooldown, and runs of frames.
- `DynamicSorting` (`dynamicsorting.dfy`): the draw-order loop.
- `Common`, `Geometry`, `Pathfinding`: optional values, sub-sequences,
  `Vector3` as triples of reals, and the plugin's `Path` record.

Positions are `real` triples. The engine's geometry primitives
(`Vector3.Distance`, `Vector3.normalized`, and the heading
`Mathf.Atan2(y, x) * Rad2Deg`) are not reimplemented: they are the three
fields of a `Geometry.Metric` parameter. Facts that need them to behave like
Euclidean geometry (the overshoot lemmas) take `Geometry.StraightLine` as a
hypothesis. Engine queries are inputs of each frame: the live units and their
world positions, the Player-tagged objects with their screen projections, the
collider under the pointer, and the pointer in world space.
`Seeker.StartPath` becomes an emitted `RouteRequest`, and its completion
arrives as a `Path` event.

Some behaviour the scripts do not have, stated so that the model is not
read as promising it:

- the drag result has no size cap (`DragSelectsMoreThanFour`); only the
  move order stops at four units;
- there is no toggle-select mode, and clicking empty space keeps the
  selection;
- `SetTarget` does not cancel the route being followed, and
  `OnPathComplete` does not check which request a result answers: it takes
  every result without error that it is handed. Whether the plugin still
  delivers results for superseded requests is up to the plugin and is not
  modelled;
- a failed route changes nothing: the unit does not return to an idle
  state, and if it was following a route it keeps following it;
- there is no fallback facing for a zero direction.

## Model

| member | source | states |
|---|---|---|
| PlayerManager.Prune | Assets/Scripts/PlayerManager.cs:36 | after pruning, exactly the live entries of the selection remain, each as often as before, in their original relative order (a sub-sequence) |
| PlayerManager.HandlePlayerSelection | Assets/Scripts/PlayerManager.cs:90-114 | a press on a Player-tagged collider replaces the selection by exactly that unit and sets clickedOnPlayer; any other press keeps the selection and clears the flag |
| PlayerManager.ClickSelectionIdempotent | Assets/Scripts/PlayerManager.cs:96-113 | there is no toggle: pressing twice on the same spot gives the same state as pressing once |
| PlayerManager.DragRect | Assets/Scripts/PlayerManager.cs:139-143 | the rectangle's bounds are the two corners' coordinates, ordered min then max on each axis |
| PlayerManager.InsideDragRect | Assets/Scripts/PlayerManager.cs:140-150 | the min/max test equals "strictly between the two corners on each axis", independent of drag direction |
| PlayerManager.ScanRect | Assets/Scripts/PlayerManager.cs:145-155 | the scan keeps exactly the units strictly inside the rectangle, in scan order |
| PlayerManager.SelectPlayersInDrag | Assets/Scripts/PlayerManager.cs:128-160 | if some unit is strictly inside, the selection becomes exactly the inside units in scan order; if none is, the selection is unchanged |
| PlayerManager.DragCornerIndependent | Assets/Scripts/PlayerManager.cs:139-143 | the drag result is the same whichever of the four corners the drag started from |
| PlayerManager.FlatDragKeepsSelection | Assets/Scripts/PlayerManager.cs:150-159 | units on an edge are excluded, so a drag of zero width or height keeps the selection |
| PlayerManager.DragResultDistinct | Assets/Scripts/PlayerManager.cs:133-159 | when the tag search returns each object once, a drag result holds each unit once |
| PlayerManager.DragSelectsMoreThanFour | Assets/Scripts/PlayerManager.cs:145-159 | five units inside the box are all selected: no cap at four |
| PlayerManager.ClickGate | Assets/Scripts/PlayerManager.cs:16-17 | the click test of line 58 accepts a press of exactly 0.2 s and 5 px, rejects a press longer than 0.2 s or farther than 5 px, and still accepts a click made shorter and closer by the same amount |
| PlayerManager.Perpendicular | Assets/Scripts/PlayerManager.cs:184 | the side vector is orthogonal to the direction and as long as its in-plane part |
| PlayerManager.SlotOffsetCoordinates | Assets/Scripts/PlayerManager.cs:193-218 | the table offset of follower k lies row(k) = 1, 1, 2 rows behind along the direction and side(k) = -1, +1, 0 to the side along the perpendicular (in units of spacing times the squared lengths of direction and perpendicular) |
| PlayerManager.AssignFormationPositions | Assets/Scripts/PlayerManager.cs:172-219 | an empty selection gets no orders; otherwise the first min(n, 4) units get one order each, in selection order, the leader the target itself and followers the table offsets; units at index 4 and above get none |
| PlayerManager.FormationShape | Assets/Scripts/PlayerManager.cs:193-218 | followers 1 and 2 mirror each other across the axis (their offsets differ by twice the spacing along the perpendicular), and follower 3's offset is the sum of theirs, so it lies on the axis |
| PlayerManager.FollowerRow | Assets/Scripts/PlayerManager.cs:224 | with C# truncating division the row is at least 1 for every index from 0 up, and equals (i + 1) / 2 for i >= 1 |
| PlayerManager.FollowerSide | Assets/Scripts/PlayerManager.cs:225 | the side is +1 for even indices and -1 for odd ones |
| PlayerManager.FollowerOffsetCoordinates | Assets/Scripts/PlayerManager.cs:221-229 | with the perpendicular of the direction, the offset lies FollowerRow rows behind along the direction and FollowerRow rows to the side given by FollowerSide along the perpendicular (rows of spacing times the squared lengths) |
| PlayerManager.CalculateFollowerOffsetVersusTable | Assets/Scripts/PlayerManager.cs:193-229 | the generic helper matches the table for followers 1 and 2; for follower 3 it matches only if the spacing is zero or the direction has no in-plane part |
| PlayerManager.Start | Assets/Scripts/PlayerManager.cs:25-31 | the Player-tagged units are appended to the serialized list, so all of them start selected; no drag or click is in progress, the click record is zeroed and the spacing is the configured one |
| PlayerManager.EndDrag | Assets/Scripts/PlayerManager.cs:116-126 | the frame first prunes, then, if a drag is in progress and the button went up, ends the drag and applies the drag selection; nothing else changes |
| PlayerManager.Press | Assets/Scripts/PlayerManager.cs:40-49 | a press records the click start time and position, applies click selection, and starts a drag from the pointer |
| PlayerManager.MoveOrders | Assets/Scripts/PlayerManager.cs:162-170 | a release ending a click not on a unit sends a non-empty selection into formation around the flattened pointer; otherwise there are no orders |
| PlayerManager.Update | Assets/Scripts/PlayerManager.cs:33-66 | after a frame every selected unit is live and the selection is the pruned list after the drag step and, on a press, after click selection; orders are issued only on a release that ends a click (at most 0.2 s, at most 5 px) not on a unit, and are then the formation orders for the selection around the flattened pointer; isDragging, the click record and the spacing evolve as in the script |
| PlayerManager.ClickOnUnitSelectsIt | Assets/Scripts/PlayerManager.cs:40-64 | a press on a unit and a release on the same spot select exactly that unit and issue no move order |
| PlayerManager.ClickOnGroundMovesSquad | Assets/Scripts/PlayerManager.cs:52-63 | a press on no unit and a quick release on the same spot keep the pruned selection and send it into formation, the leader to the pointer |
| PlayerMovement.Spawn | Assets/Scripts/PlayerMovement.cs:7-11 | a new unit stands still at its position with no route, waypoint 0 and no indicator, with the configured speed and prefab |
| PlayerMovement.SetTarget | Assets/Scripts/PlayerMovement.cs:45-68 | the target is clamped to z = 0 and recorded, a route is requested from the current position to it, the indicator exists iff a prefab is assigned, and route, waypoint, moving flag and position are untouched |
| PlayerMovement.OnPathComplete | Assets/Scripts/PlayerMovement.cs:73-89 | a successful callback installs the route from waypoint 0 and starts moving; an error callback changes nothing; speed, target and indicator are untouched |
| PlayerMovement.FollowPath | Assets/Scripts/PlayerMovement.cs:94-141 | at the end of the route the unit stops in place and the indicator is cleared; otherwise it snaps onto the waypoint and advances the index iff the waypoint is within moveSpeed * dt, else steps that far toward it with the index unchanged; the indicator changes only at the end, and the target, speed and route never |
| PlayerMovement.Update | Assets/Scripts/PlayerMovement.cs:33-39 | the route is followed only while moving and when a route exists; otherwise nothing changes |
| PlayerMovement.NoOvershoot | Assets/Scripts/PlayerMovement.cs:118-132 | with Euclidean-like geometry the distance left after a frame is max(0, d - step): the unit never passes its waypoint |
| PlayerMovement.RetargetDoesNotInterrupt | Assets/Scripts/PlayerMovement.cs:45-68 | a new target does not change how the next frame moves the unit along the current route |
| PlayerMovement.DirectionIndex | Assets/Scripts/PlayerMovement.cs:146-158 | the facing index is always in 0..7 |
| PlayerMovement.GetDirectionIndex | Assets/Scripts/PlayerMovement.cs:146-148 | the facing of any direction is in 0..7 |
| PlayerMovement.SectorsDisjoint | Assets/Scripts/PlayerMovement.cs:149-156 | no angle passes two of the eight sector tests |
| PlayerMovement.SectorsCover | Assets/Scripts/PlayerMovement.cs:148-157 | some sector test passes iff the angle is in [-180, 180], so the default is reached only outside it |
| PlayerMovement.DirectionIndexOfSector | Assets/Scripts/PlayerMovement.cs:149-156 | an angle in sector k gets that sector's index |
| PlayerMovement.DirectionIndexIsCompassSector | Assets/Scripts/PlayerMovement.cs:149-157 | on [-180, 180] the index is (6 - floor((angle + 22.5) / 45)) mod 8: the 45-degree compass sectors counted from east |
| PlayerMovement.RunStaysValid | Assets/Scripts/PlayerMovement.cs:94-127 | over any sequence of targets, callbacks and frames the waypoint index never exceeds the route length |
| PlayerMovement.FramesAdvanceOneAtATime | Assets/Scripts/PlayerMovement.cs:94-132 | over frames alone the route is kept and the waypoint index never decreases and rises by at most one per frame |
| PointAndClickPathfinding.OnPathComplete | Assets/Scripts/PointAndClickPathfinding.cs:37-45 | a successful callback installs the route from waypoint 0 and starts moving; an error changes nothing |
| PointAndClickPathfinding.FollowPath | Assets/Scripts/PointAndClickPathfinding.cs:47-62 | at the end of the route the unit stops in place; otherwise it always takes the full step toward the waypoint and advances the index iff it ends strictly closer than nextWaypointDistance; speed and nextWaypointDistance are untouched |
| PointAndClickPathfinding.Update | Assets/Scripts/PointAndClickPathfinding.cs:31-34 | the route is followed only while moving and when a route exists; the waypoint index stays within the route and rises by at most one per frame |
| PointAndClickPathfinding.MayOvershoot | Assets/Scripts/PointAndClickPathfinding.cs:55-56 | with Euclidean-like geometry the distance left is abs(d - step): a step longer than d passes the waypoint |
| PointAndClickPathfinding.OvershootKeepsWaypoint | Assets/Scripts/PointAndClickPathfinding.cs:55-61 | passing the waypoint by at least nextWaypointDistance leaves the index where it was |
| PointAndClickPathfinding.UnsetWaypointDistanceNeverAdvances | Assets/Scripts/PointAndClickPathfinding.cs:12 | with nextWaypointDistance at its default 0, the strict test never passes, so over any number of frames the unit never moves past its current waypoint |
| EnemyBehavior.Start | Assets/Scripts/EnemyBehavior.cs:17-21 | the initial lastAttackTime = -attackCooldown lets the cooldown test pass at exactly the times >= 0 |
| EnemyBehavior.CooldownAfterAttack | Assets/Scripts/EnemyBehavior.cs:42-45 | after an attack at time t, the cooldown test passes again exactly from t + attackCooldown on |
| EnemyBehavior.Nearest | Assets/Scripts/EnemyBehavior.cs:55-72 | the result is a player at minimum distance, the earliest on ties, and null iff there are no players nearer than float.MaxValue |
| EnemyBehavior.Update | Assets/Scripts/EnemyBehavior.cs:23-87 | with no target chasing stops and nothing else changes; otherwise chasing iff already chasing or within detection range, moving iff chasing beyond melee range, attacking iff chasing in melee range and cooled down; an attack sets lastAttackTime to now and deals attackDamage only to a non-null health component |
| EnemyBehavior.ChaseLatches | Assets/Scripts/EnemyBehavior.cs:31-34 | once chasing, the enemy keeps chasing while any player is found, however far |
| EnemyBehavior.FreshEnemyStrikesAtOnce | Assets/Scripts/EnemyBehavior.cs:17-46 | a freshly started enemy with a nearest player in melee and detection range attacks at any time >= 0 |
| EnemyBehavior.AttacksRespectCooldown | Assets/Scripts/EnemyBehavior.cs:42-45 | over any run of frames successive attacks are at least attackCooldown apart, the first at least attackCooldown after lastAttackTime |
| DynamicSorting.Update | Assets/Scripts/DynamicSorting.cs:13-33 | with no obstacles the order is unchanged; otherwise only the last obstacle counts, and the order is its order + 1 iff selectorY > its y and its order - 1 iff not (ties included) |

## Left out

- Floating point: positions, times and thresholds are exact reals, so
  rounding in `0.2f`, `5.0f` and the vector arithmetic is not modelled.
- `Vector3.Distance`, `normalized` and `Atan2` are the fields of an
  arbitrary `Metric`; the overshoot lemmas assume only `StraightLine`.
- Camera projections, `Physics2D.OverlapPoint`, `FindGameObjectsWithTag`,
  `GetComponent` and input polling are per-frame inputs.
- The A* search behind `Seeker.StartPath` belongs to the plugin; the
  request is emitted and the result arrives as an event.
- GUI and gizmo drawing (`OnGUI`, `OnDrawGizmos`, `GetScreenRect`,
  `DrawScreenRect*`), `Debug.Log`, and the animator calls are left out. The
  facing index is modelled as a function, but it is not stored.
- The target indicator is a boolean: its position and prefab object are not
  modelled.
- The mouse handling in `PointAndClickPathfinding.Update` starts a search
  and is input plumbing.
- `CameraController` (scroll zoom with a clamp, pan through
  `ScreenToWorldPoint`) and `SelectablePlayer` (a flag and a gizmo) are not
  part of this model.
- The order in which the engine runs the components' `Update`s is not
  modelled: each component is a separate step function.
- `EnemyBehavior`'s `targetPlayerHealth` keeps a stale value on a frame
  with no players. It is never read on such a frame, so the model takes the
  health component of the chosen player.
- DynamicSorting.Update: does not model that a sprite's sorting order is
  stored in 16 bits; the order is an unbounded integer.
