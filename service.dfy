/** src/service.rs: collision-gated movement, shared by the player controller. */
module Service {
  import opened Vectors
  import opened Math
  import opened Model
  import opened Assets

  /**
   * Move to `entity.position + movement` unless some wall meets the circle of
   * the entity's size there; a blocked move leaves the entity exactly as it was.
   */
  function MoveEntity(n: Numerics, entity: Entity, movement: Vec2, walls: seq<Wall>): (r: Entity)
    ensures r.size == entity.size
    ensures r == entity || r.position == entity.position.Add(movement)
    ensures HitsAnyWall(n, walls, entity.position.Add(movement), entity.size) ==> r == entity
    ensures !HitsAnyWall(n, walls, entity.position.Add(movement), entity.size)
            ==> r == Entity(entity.position.Add(movement), entity.size)
  {
    var newPos := entity.position.Add(movement);
    if HitsAnyWall(n, walls, newPos, entity.size) then entity else Entity(newPos, entity.size)
  }

  /** Whatever the walls, an entity that did move ends where no wall touches it. */
  lemma MoveEntityLandsClear(n: Numerics, entity: Entity, movement: Vec2, walls: seq<Wall>)
    ensures var r := MoveEntity(n, entity, movement, walls);
      r == entity || !HitsAnyWall(n, walls, r.position, r.size)
  {
  }

  /** Without walls every move succeeds. */
  lemma MoveEntityWithoutWalls(n: Numerics, entity: Entity, movement: Vec2)
    ensures MoveEntity(n, entity, movement, []) == Entity(entity.position.Add(movement), entity.size)
  {
  }

  /** A wall at index `i` that meets the destination circle blocks the move. */
  lemma MoveEntityBlocked(n: Numerics, entity: Entity, movement: Vec2, walls: seq<Wall>, i: nat)
    requires i < |walls|
    requires LineIntersectsCircle(n, walls[i].start, walls[i].end, entity.position.Add(movement), entity.size)
    ensures MoveEntity(n, entity, movement, walls) == entity
  {
  }

  /** The wall of the unit test of src/service.rs: a horizontal segment at y = 1.5. */
  const TestWall: Wall := Wall(Debug, Vec2(-10.0, 1.5), Vec2(10.0, 1.5))

  /** The unit circle around (0, 1) reaches the wall at y = 1.5. */
  lemma BlockedTargetHits(n: Numerics)
    requires SqrtExactAt(n, 1200.0)
    ensures LineIntersectsCircle(n, Vec2(-10.0, 1.5), Vec2(10.0, 1.5), Vec2(0.0, 1.0), 1.0)
  {
    var q := Quadratic(400.0, -400.0, 99.25);
    assert CircleQuadratic(Vec2(-10.0, 1.5), Vec2(10.0, 1.5), Vec2(0.0, 1.0), 1.0) == q;
    assert q.Discriminant() == 1200.0;
    var s := n.sqrt(1200.0);
    if s > 400.0 { SquareMonotone(400.0, s); }
    DivideIntoUnit(400.0, 400.0 - s);
    assert Root(q, s, -1.0) == (400.0 - s) / (2.0 * 400.0);
  }

  /** Moving the unit circle from the origin up by 1 would touch the wall, so it stays. */
  lemma MoveEntityBlockedExample(n: Numerics)
    requires SqrtExactAt(n, 1200.0)
    ensures MoveEntity(n, Entity(Zero, 1.0), Vec2(0.0, 1.0), [TestWall]) == Entity(Zero, 1.0)
  {
    BlockedTargetHits(n);
    MoveEntityBlocked(n, Entity(Zero, 1.0), Vec2(0.0, 1.0), [TestWall], 0);
  }

  /** Moving it up by 0.1 keeps it clear of the wall, so it moves up. */
  lemma MoveEntityFreeExample(n: Numerics)
    ensures MoveEntity(n, Entity(Zero, 1.0), Vec2(0.0, 0.1), [TestWall]).position.y > 0.0
  {
    assert CircleQuadratic(TestWall.start, TestWall.end, Vec2(0.0, 0.1), 1.0).Discriminant() < 0.0;
  }
}
