/** The draw-order rule (`DynamicSorting`): each frame the sprite is put
    just in front of or just behind an obstacle by comparing heights; the
    loop visits every obstacle, so the last one decides. */
module DynamicSorting {
  import opened Common

  /** An Obstacle-tagged object: its height on screen and its own sorting
      order. */
  datatype Obstacle = Obstacle(y: real, sortingOrder: int)

  /** `Update`: walks the obstacles in the order the tag search returns,
      overwriting the order each time: one above the obstacle's when the
      selector is higher (`selectorY > obstacleY`), one below otherwise,
      ties included. With no obstacles the order is left as it was. */
  method Update(sortingOrder: int, selectorY: real, obstacles: seq<Obstacle>) returns (order: int)
    ensures |obstacles| == 0 ==> order == sortingOrder
    ensures |obstacles| > 0 ==>
      var last := obstacles[|obstacles| - 1];
      && (order == last.sortingOrder + 1 <==> selectorY > last.y)
      && (order == last.sortingOrder - 1 <==> selectorY <= last.y)
  {
    order := sortingOrder;
    for i := 0 to |obstacles|
      invariant i == 0 ==> order == sortingOrder
      invariant i > 0 ==> order == obstacles[i - 1].sortingOrder + (if selectorY > obstacles[i - 1].y then 1 else -1)
    {
      var obstacleY := obstacles[i].y;
      if selectorY > obstacleY {
        order := obstacles[i].sortingOrder + 1;
      } else {
        order := obstacles[i].sortingOrder - 1;
      }
    }
  }
}
