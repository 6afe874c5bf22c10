/** The squad controller (`PlayerManager`): the selection list and how
    pointer gestures change it, the click-versus-drag gate on release, and the
    fixed four-slot formation a move order assigns. Camera projections, the
    physics point query and the tag search are inputs of each frame. */
module PlayerManager {
  import opened Common
  import opened Geometry

  /** An opaque reference to a unit's `GameObject`. */
  type Handle = nat

  /** A press counts as a click when it lasts at most this long (seconds) ... */
  const ClickThresholdTime: real := 0.2
  /** ... and the pointer travels at most this far (pixels). */
  const ClickThresholdDistance: real := 5.0
  /** The move order fills the leader's slot and three follower slots. */
  const FormationSlots: nat := 4

  // ---------------------------------------------------------------- pruning

  /** `selectedPlayers.RemoveAll(player => player == null)`: units destroyed
      since the last frame (absent from `live`) leave the selection. */
  function Prune(selected: seq<Handle>, live: map<Handle, Vec3>): (r: seq<Handle>)
    ensures forall h :: h in r <==> h in selected && h in live
    ensures forall h :: multiset(r)[h] == if h in live then multiset(selected)[h] else 0
    ensures Subsequence(r, selected)
  {
    if |selected| == 0 then []
    else
      var rest := Prune(selected[1..], live);
      assert selected == [selected[0]] + selected[1..];
      if selected[0] in live then
        assert ([selected[0]] + rest)[1..] == rest;
        [selected[0]] + rest
      else rest
  }

  // ---------------------------------------------------------------- click

  /** The collider `Physics2D.OverlapPoint` reports under the pointer, and
      whether its object is tagged "Player". */
  datatype Hit = Hit(unit: Handle, taggedPlayer: bool)

  datatype ClickOutcome = ClickOutcome(selected: seq<Handle>, clickedOnPlayer: bool)

  /** `HandlePlayerSelection`: a press on a Player-tagged collider replaces
      the selection by that one unit; a press anywhere else keeps it. */
  function HandlePlayerSelection(selected: seq<Handle>, hit: Option<Hit>): (r: ClickOutcome)
    ensures r.clickedOnPlayer <==> hit.Some? && hit.value.taggedPlayer
    ensures r.clickedOnPlayer ==> r.selected == [hit.value.unit]
    ensures !r.clickedOnPlayer ==> r.selected == selected
  {
    if hit.Some? && hit.value.taggedPlayer then ClickOutcome([hit.value.unit], true)
    else ClickOutcome(selected, false)
  }

  /** Selection by click has no toggle mode: pressing on the same spot twice
      leaves the same state as pressing once. */
  lemma ClickSelectionIdempotent(selected: seq<Handle>, hit: Option<Hit>)
    ensures var once := HandlePlayerSelection(selected, hit);
            HandlePlayerSelection(once.selected, hit) == once
  {
  }

  // ---------------------------------------------------------------- drag box

  /** A Player-tagged object with its position projected to the screen by
      `Camera.main.WorldToScreenPoint`, in the order the tag search returns. */
  datatype Sighting = Sighting(unit: Handle, screen: Vec3)

  /** The selection rectangle in screen coordinates. */
  datatype Rect = Rect(minX: real, maxX: real, minY: real, maxY: real)

  /** The rectangle spanned by the two drag corners, normalised with min/max. */
  function DragRect(start: Vec3, end: Vec3): (r: Rect)
    ensures r.minX <= r.maxX && r.minY <= r.maxY
    ensures {r.minX, r.maxX} == {start.x, end.x}
    ensures {r.minY, r.maxY} == {start.y, end.y}
  {
    Rect(Min(start.x, end.x), Max(start.x, end.x), Min(start.y, end.y), Max(start.y, end.y))
  }

  /** The test of `SelectPlayersInDrag`: strictly inside on both axes. */
  predicate Inside(r: Rect, p: Vec3)
  {
    r.minX < p.x < r.maxX && r.minY < p.y < r.maxY
  }

  /** `v` lies strictly between two bounds given in either order. */
  predicate StrictlyBetween(a: real, b: real, v: real)
  {
    (a < v < b) || (b < v < a)
  }

  /** The drag test stated without normalising: strictly between the two
      corners on both axes, whichever corner the drag began at. */
  predicate WithinDrag(start: Vec3, end: Vec3, p: Vec3)
  {
    StrictlyBetween(start.x, end.x, p.x) && StrictlyBetween(start.y, end.y, p.y)
  }

  function Units(players: seq<Sighting>): (r: seq<Handle>)
    ensures |r| == |players|
    ensures forall i :: 0 <= i < |players| ==> r[i] == players[i].unit
  {
    seq(|players|, i requires 0 <= i < |players| => players[i].unit)
  }

  /** The scan of `SelectPlayersInDrag`: the units whose screen position lies
      inside `rect`, in scan order. */
  function ScanRect(players: seq<Sighting>, rect: Rect): (r: seq<Handle>)
    ensures forall h :: h in r <==>
      exists i :: 0 <= i < |players| && players[i].unit == h && Inside(rect, players[i].screen)
    ensures Subsequence(r, Units(players))
  {
    if |players| == 0 then []
    else
      var rest := ScanRect(players[1..], rect);
      assert Units(players)[1..] == Units(players[1..]);
      assert forall i :: 0 <= i < |players| - 1 ==> players[1..][i] == players[i + 1];
      if Inside(rect, players[0].screen) then
        assert ([players[0].unit] + rest)[1..] == rest;
        [players[0].unit] + rest
      else rest
  }

  /** `SelectPlayersInDrag`: when some unit lies strictly inside the dragged
      rectangle, the selection becomes exactly those units, in scan order and
      without a size cap; when none does, the selection is kept. */
  function SelectPlayersInDrag(selected: seq<Handle>, players: seq<Sighting>, start: Vec3, end: Vec3): (r: seq<Handle>)
    ensures (exists i :: 0 <= i < |players| && WithinDrag(start, end, players[i].screen)) ==>
      && (forall h :: h in r <==>
            exists i :: 0 <= i < |players| && players[i].unit == h && WithinDrag(start, end, players[i].screen))
      && Subsequence(r, Units(players))
    ensures (forall i :: 0 <= i < |players| ==> !WithinDrag(start, end, players[i].screen)) ==> r == selected
  {
    var found := ScanRect(players, DragRect(start, end));
    forall p ensures Inside(DragRect(start, end), p) <==> WithinDrag(start, end, p) {
      InsideDragRect(start, end, p);
    }
    if |found| > 0 then
      assert found[0] in found;
      found
    else
      assert forall i :: 0 <= i < |players| && WithinDrag(start, end, players[i].screen) ==> players[i].unit in found;
      selected
  }

  /** Normalising with min/max and testing strictly inside is the same as
      testing strictly between the two corners on each axis. */
  lemma InsideDragRect(start: Vec3, end: Vec3, p: Vec3)
    ensures Inside(DragRect(start, end), p) <==> WithinDrag(start, end, p)
  {
  }

  /** The drag result depends on the rectangle, not on which of its four
      corners the drag started from. */
  lemma DragCornerIndependent(selected: seq<Handle>, players: seq<Sighting>, a: Vec3, b: Vec3)
    ensures SelectPlayersInDrag(selected, players, a, b) == SelectPlayersInDrag(selected, players, b, a)
    ensures SelectPlayersInDrag(selected, players, a, b)
         == SelectPlayersInDrag(selected, players, Vec3(a.x, b.y, a.z), Vec3(b.x, a.y, b.z))
  {
  }

  /** A unit on an edge of the rectangle is not selected, so a drag of zero
      width or height (a plain click) never changes the selection. */
  lemma FlatDragKeepsSelection(selected: seq<Handle>, players: seq<Sighting>, start: Vec3, end: Vec3)
    requires start.x == end.x || start.y == end.y
    ensures SelectPlayersInDrag(selected, players, start, end) == selected
  {
  }

  /** The tag search returns each object once, and then the drag result
      holds each selected unit once. */
  lemma DragResultDistinct(selected: seq<Handle>, players: seq<Sighting>, start: Vec3, end: Vec3)
    requires Distinct(Units(players))
    requires exists i :: 0 <= i < |players| && WithinDrag(start, end, players[i].screen)
    ensures Distinct(SelectPlayersInDrag(selected, players, start, end))
  {
    SubsequenceOfDistinct(SelectPlayersInDrag(selected, players, start, end), Units(players));
  }

  /** The drag result is not capped at the four formation slots: five units
      inside the box are all selected. */
  lemma DragSelectsMoreThanFour()
    ensures var players := [Sighting(0, Vec3(1.0, 1.0, 0.0)), Sighting(1, Vec3(2.0, 1.0, 0.0)),
                            Sighting(2, Vec3(3.0, 1.0, 0.0)), Sighting(3, Vec3(4.0, 1.0, 0.0)),
                            Sighting(4, Vec3(5.0, 1.0, 0.0))];
            SelectPlayersInDrag([], players, Origin, Vec3(10.0, 10.0, 0.0)) == [0, 1, 2, 3, 4]
  {
  }

  // ---------------------------------------------------------------- click gate

  /** The release ends a click, not a drag, when the press was short and
      the pointer barely moved. */
  predicate IsClick(duration: real, travel: real)
  {
    duration <= ClickThresholdTime && travel <= ClickThresholdDistance
  }

  /** Both click thresholds are inclusive, and anything shorter and closer
      than a click is a click too. */
  lemma ClickGate(duration: real, travel: real, excess: real)
    requires excess > 0.0
    ensures IsClick(ClickThresholdTime, ClickThresholdDistance)
    ensures !IsClick(ClickThresholdTime + excess, 0.0) && !IsClick(0.0, ClickThresholdDistance + excess)
    ensures IsClick(duration, travel) ==> IsClick(duration - excess, travel - excess)
  {
  }

  // ---------------------------------------------------------------- formation

  /** A `PlayerMovement.SetTarget(target)` call on one unit. */
  datatype Order = Order(unit: Handle, target: Vec3)

  /** `new Vector3(-direction.y, direction.x, 0)`: the direction turned a
      quarter turn to the left in the plane. */
  function Perpendicular(d: Vec3): (p: Vec3)
    ensures Dot(p, d) == 0.0
    ensures Dot(p, p) == d.x * d.x + d.y * d.y
  {
    Vec3(-d.y, d.x, 0.0)
  }

  /** The row of the table: 1 for followers 1 and 2, 2 for follower 3. */
  function SlotRow(slot: nat): real
  {
    if slot <= 2 then 1.0 else 2.0
  }

  /** The side of the table: follower 1 to the right of the direction (-1),
      follower 2 to the left (+1), follower 3 on the axis (0). */
  function SlotSide(slot: nat): real
  {
    if slot == 1 then -1.0 else if slot == 2 then 1.0 else 0.0
  }

  /** The hard-coded offsets of followers 1 to 3 (players 2 to 4). */
  function SlotOffset(slot: nat, d: Vec3, spacing: real): Vec3
    requires 1 <= slot <= 3
  {
    var p := Perpendicular(d);
    if slot == 1 then Add(Scale(Neg(d), spacing), Scale(p, -spacing))
    else if slot == 2 then Add(Scale(Neg(d), spacing), Scale(p, spacing))
    else Scale(Scale(Neg(d), 2.0), spacing)
  }

  /** Follower k of the table stands `SlotRow(k)` rows behind the target
      along the direction and `SlotSide(k)` to its side, measured in units of
      `spacing` times the squared lengths of the direction and its
      perpendicular. */
  lemma SlotOffsetCoordinates(slot: nat, d: Vec3, spacing: real)
    requires 1 <= slot <= 3
    ensures Dot(SlotOffset(slot, d, spacing), d) == -spacing * SlotRow(slot) * Dot(d, d)
    ensures Dot(SlotOffset(slot, d, spacing), Perpendicular(d))
         == SlotSide(slot) * spacing * Dot(Perpendicular(d), Perpendicular(d))
  {
    var p := Perpendicular(d);
    if slot == 1 {
      assert SlotOffset(1, d, spacing) == Add(Scale(Neg(d), spacing * 1.0), Scale(p, -1.0 * spacing * 1.0));
      BackAndSideDots(d, p, spacing, 1.0, -1.0);
    } else if slot == 2 {
      assert SlotOffset(2, d, spacing) == Add(Scale(Neg(d), spacing * 1.0), Scale(p, 1.0 * spacing * 1.0));
      BackAndSideDots(d, p, spacing, 1.0, 1.0);
    } else {
      assert SlotOffset(3, d, spacing) == Add(Scale(Neg(d), spacing * 2.0), Scale(p, 0.0 * spacing * 2.0));
      BackAndSideDots(d, p, spacing, 2.0, 0.0);
    }
  }

  /** `AssignFormationPositions`: the leader `selected[0]` is sent to the
      target itself and followers 1..3 to fixed offsets behind it, oriented
      by the direction from the leader to the target; units past the fourth
      get no order. */
  function AssignFormationPositions(selected: seq<Handle>, leaderPosition: Vec3, target: Vec3,
                                    spacing: real, m: Metric): (orders: seq<Order>)
    ensures |orders| == MinInt(|selected|, FormationSlots)
    ensures forall i :: 0 <= i < |orders| ==> orders[i].unit == selected[i]
    ensures |selected| > 0 ==> orders[0].target == target
    ensures forall i :: 1 <= i < |orders| ==>
      orders[i].target == Add(target, SlotOffset(i, m.normalized(Sub(target, leaderPosition)), spacing))
  {
    if |selected| == 0 then []
    else
      var d := m.normalized(Sub(target, leaderPosition));
      var leader := [Order(selected[0], target)];
      var second := if |selected| >= 2 then [Order(selected[1], Add(target, SlotOffset(1, d, spacing)))] else [];
      var third := if |selected| >= 3 then [Order(selected[2], Add(target, SlotOffset(2, d, spacing)))] else [];
      var fourth := if |selected| >= 4 then [Order(selected[3], Add(target, SlotOffset(3, d, spacing)))] else [];
      leader + second + third + fourth
  }


  /** Followers 1 and 2 mirror each other across the axis through the
      target: their offsets differ only by twice `spacing` along the
      perpendicular. Follower 3's offset is the sum of theirs, so it lies on
      the axis, at twice their common distance behind the target. */
  lemma FormationShape(d: Vec3, spacing: real)
    ensures Sub(SlotOffset(1, d, spacing), SlotOffset(2, d, spacing)) == Scale(Perpendicular(d), -2.0 * spacing)
    ensures Add(SlotOffset(1, d, spacing), SlotOffset(2, d, spacing)) == SlotOffset(3, d, spacing)
  {
  }

  // ---------------------------------------------------------------- generic offset

  /** C#'s `/` on `int`, which truncates toward zero. */
  function TruncDiv(a: int, b: int): int
    requires b > 0
  {
    if a >= 0 then a / b else -((-a) / b)
  }

  /** `formationRow = (followerIndex - 1) / 2 + 1`. */
  function FollowerRow(followerIndex: int): (row: int)
    ensures followerIndex >= 0 ==> row >= 1
    ensures followerIndex >= 1 ==> row == (followerIndex + 1) / 2
  {
    TruncDiv(followerIndex - 1, 2) + 1
  }

  /** `sideMultiplier`: -1 for odd indices, +1 for even ones. (C#'s `%` gives
      -1 where Dafny's gives 1 for a negative odd index; both differ from 0.) */
  function FollowerSide(followerIndex: int): (side: int)
    ensures side == 1 || side == -1
    ensures side == 1 <==> followerIndex % 2 == 0
  {
    if followerIndex % 2 == 0 then 1 else -1
  }

  /** `CalculateFollowerOffset`, the generic V-formation helper, which the
      move order does not call. */
  function CalculateFollowerOffset(followerIndex: int, d: Vec3, p: Vec3, spacing: real): Vec3
  {
    var row := FollowerRow(followerIndex) as real;
    var side := FollowerSide(followerIndex) as real;
    Add(Scale(Neg(d), spacing * row), Scale(p, side * spacing * row))
  }

  /** Given the perpendicular of the direction, the helper puts follower i
      `FollowerRow(i)` rows behind the target along the direction and as many
      rows to the side `FollowerSide(i)` along the perpendicular. */
  lemma FollowerOffsetCoordinates(followerIndex: int, d: Vec3, p: Vec3, spacing: real)
    requires p == Perpendicular(d)
    ensures Dot(CalculateFollowerOffset(followerIndex, d, p, spacing), d)
         == -spacing * FollowerRow(followerIndex) as real * Dot(d, d)
    ensures Dot(CalculateFollowerOffset(followerIndex, d, p, spacing), p)
         == FollowerSide(followerIndex) as real * spacing * FollowerRow(followerIndex) as real * Dot(p, p)
  {
    BackAndSideDots(d, p, spacing, FollowerRow(followerIndex) as real, FollowerSide(followerIndex) as real);
  }

  /** Reals have no zero divisors. */
  lemma ProductNonZero(a: real, b: real)
    requires a != 0.0 && b != 0.0
    ensures a * b != 0.0
  {
  }

  /** The generic helper agrees with the hard-coded table for followers 1
      and 2, but for follower 3 it puts the unit to the side (row 2, side
      -1), where the table centres it: the two agree only when the spacing is
      zero or the direction has no in-plane component. */
  lemma CalculateFollowerOffsetVersusTable(d: Vec3, spacing: real)
    ensures CalculateFollowerOffset(1, d, Perpendicular(d), spacing) == SlotOffset(1, d, spacing)
    ensures CalculateFollowerOffset(2, d, Perpendicular(d), spacing) == SlotOffset(2, d, spacing)
    ensures CalculateFollowerOffset(3, d, Perpendicular(d), spacing) == SlotOffset(3, d, spacing)
        <==> spacing == 0.0 || (d.x == 0.0 && d.y == 0.0)
  {
    assert FollowerRow(1) == 1 && FollowerSide(1) == -1;
    assert FollowerRow(2) == 1 && FollowerSide(2) == 1;
    assert FollowerRow(3) == 2 && FollowerSide(3) == -1;
    var g := CalculateFollowerOffset(3, d, Perpendicular(d), spacing);
    var t := SlotOffset(3, d, spacing);
    assert g.x - t.x == 2.0 * spacing * d.y;
    assert g.y - t.y == -2.0 * spacing * d.x;
    if spacing != 0.0 && !(d.x == 0.0 && d.y == 0.0) {
      if d.y != 0.0 {
        ProductNonZero(spacing, d.y);
      } else {
        ProductNonZero(spacing, d.x);
      }
    }
  }

  // ---------------------------------------------------------------- per frame

  /** The component's fields. */
  datatype Manager = Manager(selected: seq<Handle>, dragStartPosition: Vec3, isDragging: bool,
                             clickStartTime: real, clickStartPosition: Vec3,
                             clickedOnPlayer: bool, formationSpacing: real)

  /** `Start`: every Player-tagged unit is appended to the list serialized
      with the component (usually empty), so all of them begin selected. */
  function Start(serialized: seq<Handle>, players: seq<Handle>, formationSpacing: real): (mgr: Manager)
    ensures |mgr.selected| == |serialized| + |players|
    ensures mgr.selected[..|serialized|] == serialized && mgr.selected[|serialized|..] == players
    ensures forall h :: h in players ==> h in mgr.selected
    ensures !mgr.isDragging && !mgr.clickedOnPlayer && mgr.formationSpacing == formationSpacing
    ensures mgr.clickStartTime == 0.0 && mgr.clickStartPosition == Origin && mgr.dragStartPosition == Origin
  {
    Manager(serialized + players, Origin, false, 0.0, Origin, false, formationSpacing)
  }

  /** What the engine reports in one frame: the time and pointer position,
      whether the left button went down or up, the live units with their
      world positions, the Player-tagged objects with their screen positions,
      the collider under the pointer, and the pointer in world space. */
  datatype Frame = Frame(time: real, mouse: Vec3, pressed: bool, released: bool,
                         live: map<Handle, Vec3>, players: seq<Sighting>,
                         hit: Option<Hit>, pointerWorld: Vec3)

  /** The engine only reports live objects: the tag search and the point
      query never return a destroyed unit. */
  predicate FrameConsistent(f: Frame)
  {
    && (forall i :: 0 <= i < |f.players| ==> f.players[i].unit in f.live)
    && (f.hit.Some? && f.hit.value.taggedPlayer ==> f.hit.value.unit in f.live)
  }

  datatype Reaction = Reaction(manager: Manager, orders: seq<Order>)

  /** Lines 36-38 of `Update`: prune the selection, then, if a drag is in
      progress and the button went up, end it and apply the drag selection.
      Nothing else changes. */
  function EndDrag(mgr: Manager, f: Frame): (r: Manager)
    requires FrameConsistent(f)
    ensures forall h :: h in r.selected ==> h in f.live
    ensures r.selected == if mgr.isDragging && f.released
                          then SelectPlayersInDrag(Prune(mgr.selected, f.live), f.players, mgr.dragStartPosition, f.mouse)
                          else Prune(mgr.selected, f.live)
    ensures r.isDragging == (mgr.isDragging && !f.released)
    ensures r == mgr.(selected := r.selected, isDragging := r.isDragging)
  {
    var pruned := Prune(mgr.selected, f.live);
    var dragEnds := mgr.isDragging && f.released;
    var selected := if dragEnds then SelectPlayersInDrag(pruned, f.players, mgr.dragStartPosition, f.mouse)
                    else pruned;
    assert forall h :: h in selected ==> h in f.live by {
      if dragEnds {
        var rect := DragRect(mgr.dragStartPosition, f.mouse);
        SubsequenceMembers(ScanRect(f.players, rect), Units(f.players));
      }
    }
    mgr.(selected := selected, isDragging := if dragEnds then false else mgr.isDragging)
  }

  /** Lines 40-49 of `Update`: on a press, record the click start, apply
      click selection, and start a new drag from the pointer. */
  function Press(mgr: Manager, f: Frame): (r: Manager)
    requires FrameConsistent(f)
    requires forall h :: h in mgr.selected ==> h in f.live
    ensures forall h :: h in r.selected ==> h in f.live
    ensures r.selected == HandlePlayerSelection(mgr.selected, f.hit).selected
    ensures r.clickedOnPlayer == HandlePlayerSelection(mgr.selected, f.hit).clickedOnPlayer
    ensures r.clickStartTime == f.time && r.clickStartPosition == f.mouse
    ensures r.dragStartPosition == f.mouse && r.isDragging
    ensures r.formationSpacing == mgr.formationSpacing
  {
    var click := HandlePlayerSelection(mgr.selected, f.hit);
    mgr.(clickStartTime := f.time, clickStartPosition := f.mouse, selected := click.selected,
         clickedOnPlayer := click.clickedOnPlayer, dragStartPosition := f.mouse, isDragging := true)
  }

  /** Lines 52-65 of `Update` with `HandlePlayerMovement`: a release that
      ends a click not on a unit sends a non-empty selection into formation
      around the pointer, flattened to z = 0; any other frame orders nothing. */
  function MoveOrders(mgr: Manager, f: Frame, m: Metric): (orders: seq<Order>)
    requires forall h :: h in mgr.selected ==> h in f.live
    ensures var click := f.released && !mgr.clickedOnPlayer
              && IsClick(f.time - mgr.clickStartTime, m.distance(mgr.clickStartPosition, f.mouse));
      && (click && |mgr.selected| > 0 ==>
            orders == AssignFormationPositions(mgr.selected, f.live[mgr.selected[0]], Flatten(f.pointerWorld),
                                               mgr.formationSpacing, m))
      && (!(click && |mgr.selected| > 0) ==> orders == [])
  {
    if f.released
       && IsClick(f.time - mgr.clickStartTime, m.distance(mgr.clickStartPosition, f.mouse))
       && !mgr.clickedOnPlayer
    then
      if |mgr.selected| > 0 then
        assert mgr.selected[0] in mgr.selected;
        AssignFormationPositions(mgr.selected, f.live[mgr.selected[0]], Flatten(f.pointerWorld),
                                 mgr.formationSpacing, m)
      else []
    else []
  }

  /** `Update`: prune, finish a drag on release, start a press (click
      selection and a new drag) on press, and on a release that ends a click
      away from any unit, send the selection into formation around the
      pointer. */
  function Update(mgr: Manager, f: Frame, m: Metric): (r: Reaction)
    requires FrameConsistent(f)
    ensures forall h :: h in r.manager.selected ==> h in f.live
    ensures |r.orders| <= FormationSlots && |r.orders| <= |r.manager.selected|
    ensures forall i :: 0 <= i < |r.orders| ==> r.orders[i].unit == r.manager.selected[i]
    ensures |r.orders| > 0 ==>
      && f.released
      && IsClick(f.time - r.manager.clickStartTime, m.distance(r.manager.clickStartPosition, f.mouse))
      && !r.manager.clickedOnPlayer
      && r.orders == AssignFormationPositions(r.manager.selected, f.live[r.manager.selected[0]],
                                              Flatten(f.pointerWorld), mgr.formationSpacing, m)
    ensures f.released && IsClick(f.time - r.manager.clickStartTime, m.distance(r.manager.clickStartPosition, f.mouse))
            && !r.manager.clickedOnPlayer && |r.manager.selected| > 0 ==>
      && |r.orders| == MinInt(|r.manager.selected|, FormationSlots)
      && r.orders[0].target == Flatten(f.pointerWorld)
    ensures var afterDrag := EndDrag(mgr, f).selected;
            && (!f.pressed ==> r.manager.selected == afterDrag)
            && (f.pressed ==> r.manager.selected == HandlePlayerSelection(afterDrag, f.hit).selected
                              && r.manager.clickedOnPlayer == HandlePlayerSelection(afterDrag, f.hit).clickedOnPlayer)
    ensures r.manager.formationSpacing == mgr.formationSpacing
    ensures r.manager.isDragging == (f.pressed || (mgr.isDragging && !f.released))
    ensures f.pressed ==> r.manager.dragStartPosition == f.mouse
                          && r.manager.clickStartTime == f.time && r.manager.clickStartPosition == f.mouse
    ensures !f.pressed ==> && r.manager.clickedOnPlayer == mgr.clickedOnPlayer
                           && r.manager.clickStartTime == mgr.clickStartTime
                           && r.manager.clickStartPosition == mgr.clickStartPosition
                           && r.manager.dragStartPosition == mgr.dragStartPosition
  {
    var afterDrag := EndDrag(mgr, f);
    var afterPress := if f.pressed then Press(afterDrag, f) else afterDrag;
    Reaction(afterPress, MoveOrders(afterPress, f, m))
  }

  /** A click on a unit: a press on its collider and a release on the same
      spot select exactly that unit and issue no move order. */
  lemma ClickOnUnitSelectsIt(mgr: Manager, f1: Frame, f2: Frame, m: Metric, u: Handle)
    requires FrameConsistent(f1) && FrameConsistent(f2)
    requires f1.pressed && !f1.released && f1.hit == Some(Hit(u, true))
    requires !f2.pressed && f2.released && f2.mouse == f1.mouse && u in f2.live
    ensures var r2 := Update(Update(mgr, f1, m).manager, f2, m);
            r2.manager.selected == [u] && r2.orders == [] && !r2.manager.isDragging
  {
  }

  /** A click on open ground: a press on no unit and a quick release on the
      same spot send the surviving selection into formation around the
      pointer, the leader to the pointer itself. */
  lemma ClickOnGroundMovesSquad(mgr: Manager, f1: Frame, f2: Frame, m: Metric)
    requires FrameConsistent(f1) && FrameConsistent(f2)
    requires f1.pressed && !f1.released && (f1.hit.None? || !f1.hit.value.taggedPlayer)
    requires !f2.pressed && f2.released && f2.mouse == f1.mouse
    requires f2.time - f1.time <= ClickThresholdTime
    requires StraightLine(m)
    ensures var squad := Prune(Prune(mgr.selected, f1.live), f2.live);
            var r2 := Update(Update(mgr, f1, m).manager, f2, m);
            && r2.manager.selected == squad
            && |r2.orders| == MinInt(|squad|, FormationSlots)
            && (forall i :: 0 <= i < |r2.orders| ==> r2.orders[i].unit == squad[i])
            && (|squad| > 0 ==> r2.orders[0].target == Flatten(f2.pointerWorld))
  {
  }
}
