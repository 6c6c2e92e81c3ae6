/** The local map of walkable tiles a creature keeps around itself and shifts with every step. */
module WalkCaches {

  const MAX_VIEWPORT: int := 11
  /** Rows and columns of the map. */
  const SIDE: int := 2 * MAX_VIEWPORT + 1

  datatype Position = Position(x: int, y: int, z: int) {
    function Offset(dx: int, dy: int): Position {
      Position(x + dx, y + dy, z)
    }
  }

  /** The tiles that exist and would let the creature in. */
  type Ground = set<Position>

  predicate InRange(dx: int, dy: int) {
    -MAX_VIEWPORT <= dx <= MAX_VIEWPORT && -MAX_VIEWPORT <= dy <= MAX_VIEWPORT
  }

  /** Two grounds agree everywhere but on some tiles. */
  ghost predicate SameBut(ground: Ground, ground': Ground, changed: set<Position>) {
    forall p :: p !in changed ==> (p in ground <==> p in ground')
  }

  predicate OneStep(from: Position, to: Position) {
    to.z == from.z && -1 <= to.x - from.x <= 1 && -1 <= to.y - from.y <= 1
  }

  /** What a creature at a position is told about a tile. */
  function Answer(position: Position, p: Position, ground: Ground): int {
    if p.z != position.z then 0
    else if p == position then 1
    else if !InRange(p.x - position.x, p.y - position.y) then 2
    else if p in ground then 1
    else 0
  }

  /** What the creature hears of, with the ground after it. */
  datatype Event =
    | Move(to: Position, teleport: bool, after: Ground)
    | TileItem(p: Position, blocks: bool, after: Ground)
    | OtherMove(from: Position, to: Position, after: Ground)

  /** Every event changes the ground on its own tiles only, and walking is by single steps. */
  ghost predicate Possible(events: seq<Event>, position: Position, ground: Ground) {
    events == [] ||
      match events[0]
      case Move(to, teleport, after) =>
        && SameBut(ground, after, {position, to}) && (teleport || to.z != position.z || OneStep(position, to))
        && Possible(events[1..], to, after)
      case TileItem(p, blocks, after) =>
        && SameBut(ground, after, {p}) && (!blocks ==> (p in after <==> p in ground))
        && Possible(events[1..], position, after)
      case OtherMove(from, to, after) =>
        SameBut(ground, after, {from, to}) && Possible(events[1..], position, after)
  }

  function GroundAfter(events: seq<Event>, ground: Ground): Ground {
    if events == [] then ground else GroundAfter(events[1..], events[0].after)
  }

  class Walker {
    const localMapCache: array2<bool>
    var position: Position

    constructor (position: Position, ground: Ground)
      ensures Valid() && Mirrors(ground) && this.position == position && fresh(localMapCache)
    {
      this.position := position;
      localMapCache := new bool[SIDE, SIDE]((_, _) => false);
      new;
      UpdateMapCache(ground);
    }

    predicate Valid() {
      localMapCache.Length0 == SIDE && localMapCache.Length1 == SIDE
    }

    /** The cached bit of a tile at an offset from the creature, in range. */
    predicate Cell(dx: int, dy: int)
      requires Valid()
      reads localMapCache
    {
      InRange(dx, dy) && localMapCache[MAX_VIEWPORT + dy, MAX_VIEWPORT + dx]
    }

    /** The map is what a full computation would give, but for the creature's own tile. */
    ghost predicate Mirrors(ground: Ground)
      requires Valid()
      reads this, localMapCache
    {
      forall dx, dy :: InRange(dx, dy) && (dx != 0 || dy != 0) ==> Cell(dx, dy) == (position.Offset(dx, dy) in ground)
    }

    method UpdateTileCache(dx: int, dy: int, ground: Ground)
      requires Valid()
      modifies localMapCache
      ensures forall x, y :: InRange(x, y) ==>
        Cell(x, y) == if x == dx && y == dy then (position.Offset(dx, dy) in ground) else old(Cell(x, y))
    {
      if -MAX_VIEWPORT <= dx <= MAX_VIEWPORT && -MAX_VIEWPORT <= dy <= MAX_VIEWPORT {
        localMapCache[MAX_VIEWPORT + dy, MAX_VIEWPORT + dx] := (position.Offset(dx, dy) in ground);
      }
    }

    /** The full computation. */
    method UpdateMapCache(ground: Ground)
      requires Valid()
      modifies localMapCache
      ensures forall dx, dy :: InRange(dx, dy) ==> Cell(dx, dy) == (position.Offset(dx, dy) in ground)
    {
      var y := -MAX_VIEWPORT;
      while y <= MAX_VIEWPORT
        invariant -MAX_VIEWPORT <= y <= MAX_VIEWPORT + 1
        invariant forall dx, dy :: InRange(dx, dy) && dy < y ==> Cell(dx, dy) == (position.Offset(dx, dy) in ground)
      {
        RefillRow(y, ground);
        y := y + 1;
      }
    }

    method RefillRow(dy: int, ground: Ground)
      requires Valid() && InRange(0, dy)
      modifies localMapCache
      ensures forall x, y :: InRange(x, y) ==>
        Cell(x, y) == if y == dy then (position.Offset(x, y) in ground) else old(Cell(x, y))
    {
      var dx := -MAX_VIEWPORT;
      while dx <= MAX_VIEWPORT
        invariant -MAX_VIEWPORT <= dx <= MAX_VIEWPORT + 1
        invariant forall x, y :: InRange(x, y) ==>
          Cell(x, y) == if y == dy && x < dx then (position.Offset(x, y) in ground) else old(Cell(x, y))
      {
        UpdateTileCache(dx, dy, ground);
        dx := dx + 1;
      }
    }

    method RefillColumn(dx: int, ground: Ground)
      requires Valid() && InRange(dx, 0)
      modifies localMapCache
      ensures forall x, y :: InRange(x, y) ==>
        Cell(x, y) == if x == dx then (position.Offset(x, y) in ground) else old(Cell(x, y))
    {
      var dy := -MAX_VIEWPORT;
      while dy <= MAX_VIEWPORT
        invariant -MAX_VIEWPORT <= dy <= MAX_VIEWPORT + 1
        invariant forall x, y :: InRange(x, y) ==>
          Cell(x, y) == if x == dx && y < dy then (position.Offset(x, y) in ground) else old(Cell(x, y))
      {
        UpdateTileCache(dx, dy, ground);
        dy := dy + 1;
      }
    }

    method CopyRow(from: int, to: int)
      requires Valid() && 0 <= from < SIDE && 0 <= to < SIDE
      modifies localMapCache
      ensures forall x :: 0 <= x < SIDE ==> localMapCache[to, x] == old(localMapCache[from, x])
      ensures forall y, x :: 0 <= y < SIDE && 0 <= x < SIDE && y != to ==> localMapCache[y, x] == old(localMapCache[y, x])
    {
      forall x | 0 <= x < SIDE {
        localMapCache[to, x] := localMapCache[from, x];
      }
    }

    method ShiftSouth()
      requires Valid()
      modifies localMapCache
      ensures forall y, x :: 0 < y < SIDE && 0 <= x < SIDE ==> localMapCache[y, x] == old(localMapCache[y - 1, x])
    {
      var y := SIDE - 2;
      while y >= 0
        invariant -1 <= y <= SIDE - 2
        invariant forall r, x :: y + 1 < r < SIDE && 0 <= x < SIDE ==> localMapCache[r, x] == old(localMapCache[r - 1, x])
        invariant forall r, x :: 0 <= r <= y + 1 && 0 <= x < SIDE ==> localMapCache[r, x] == old(localMapCache[r, x])
      {
        CopyRow(y, y + 1);
        y := y - 1;
      }
    }

    method ShiftNorth()
      requires Valid()
      modifies localMapCache
      ensures forall y, x :: 0 <= y < SIDE - 1 && 0 <= x < SIDE ==> localMapCache[y, x] == old(localMapCache[y + 1, x])
    {
      var y := 0;
      while y <= SIDE - 2
        invariant 0 <= y <= SIDE - 1
        invariant forall r, x :: 0 <= r < y && 0 <= x < SIDE ==> localMapCache[r, x] == old(localMapCache[r + 1, x])
        invariant forall r, x :: y <= r < SIDE && 0 <= x < SIDE ==> localMapCache[r, x] == old(localMapCache[r, x])
      {
        CopyRow(y + 1, y);
        y := y + 1;
      }
    }

    /** Shifts the rows from one to another by a column to the west. */
    method ShiftWest(startY: int, endY: int)
      requires Valid() && 0 <= startY && endY < SIDE
      modifies localMapCache
      ensures forall y, x :: 0 <= y < SIDE && 0 <= x < SIDE ==>
        localMapCache[y, x] == old(localMapCache[y, if startY <= y <= endY && x < SIDE - 1 then x + 1 else x])
    {
      var y := startY;
      while y <= endY
        invariant startY <= y
        invariant forall r, x :: 0 <= r < SIDE && 0 <= x < SIDE ==>
          localMapCache[r, x] == old(localMapCache[r, if startY <= r < y && r <= endY && x < SIDE - 1 then x + 1 else x])
      {
        var x := 0;
        while x <= SIDE - 2
          invariant 0 <= x <= SIDE - 1
          invariant forall r, c :: 0 <= r < SIDE && 0 <= c < SIDE ==>
            localMapCache[r, c]
            == old(localMapCache[r, if startY <= r <= y && (r < y || c < x) && c < SIDE - 1 then c + 1 else c])
        {
          localMapCache[y, x] := localMapCache[y, x + 1];
          x := x + 1;
        }
        y := y + 1;
      }
    }

    /** Shifts the rows from one to another by a column to the east. */
    method ShiftEast(startY: int, endY: int)
      requires Valid() && 0 <= startY && endY < SIDE
      modifies localMapCache
      ensures forall y, x :: 0 <= y < SIDE && 0 <= x < SIDE ==>
        localMapCache[y, x] == old(localMapCache[y, if startY <= y <= endY && x > 0 then x - 1 else x])
    {
      var y := startY;
      while y <= endY
        invariant startY <= y
        invariant forall r, x :: 0 <= r < SIDE && 0 <= x < SIDE ==>
          localMapCache[r, x] == old(localMapCache[r, if startY <= r < y && r <= endY && x > 0 then x - 1 else x])
      {
        var x := SIDE - 2;
        while x >= 0
          invariant -1 <= x <= SIDE - 2
          invariant forall r, c :: 0 <= r < SIDE && 0 <= c < SIDE ==>
            localMapCache[r, c]
            == old(localMapCache[r, if startY <= r <= y && (r < y || c > x + 1) && c > 0 then c - 1 else c])
        {
          localMapCache[y, x + 1] := localMapCache[y, x];
          x := x - 1;
        }
        y := y + 1;
      }
    }

    /** The rows: shifted against a step north or south, with the row that comes into view refilled. */
    method MoveRows(oldPos: Position, newPos: Position, ground: Ground)
      requires Valid() && position == newPos && OneStep(oldPos, newPos)
      modifies localMapCache
      ensures forall x, y :: InRange(x, y) ==>
        var sy := newPos.y - oldPos.y;
        Cell(x, y) == if InRange(x, y + sy) then old(Cell(x, y + sy)) else (newPos.Offset(x, y) in ground)
    {
      if oldPos.y > newPos.y {
        ShiftSouth();
        RefillRow(-MAX_VIEWPORT, ground);
      } else if oldPos.y < newPos.y {
        ShiftNorth();
        RefillRow(MAX_VIEWPORT, ground);
      }
    }

    /** The rows whose columns are to be shifted: not the row that was just refilled. */
    method OldRows(oldPos: Position, newPos: Position) returns (startY: int, endY: int)
      requires -1 <= newPos.y - oldPos.y <= 1
      ensures startY == if newPos.y < oldPos.y then 1 else 0
      ensures endY == if newPos.y > oldPos.y then SIDE - 2 else SIDE - 1
    {
      startY, endY := 0, SIDE - 1;
      var dy := oldPos.y - newPos.y;
      if dy < 0 {
        endY := endY + dy;
      } else if dy > 0 {
        startY := startY + dy;
      }
    }

    method StepEast(oldPos: Position, newPos: Position, ground: Ground)
      requires Valid() && position == newPos && -1 <= newPos.y - oldPos.y <= 1
      modifies localMapCache
      ensures forall x, y {:trigger Cell(x, y)} :: InRange(x, y) ==>
        Cell(x, y) == if !InRange(x + 1, y) then (newPos.Offset(x, y) in ground)
                      else if InRange(x, y + (newPos.y - oldPos.y)) then old(Cell(x + 1, y)) else old(Cell(x, y))
    {
      var startY, endY := OldRows(oldPos, newPos);
      ShiftWest(startY, endY);
      RefillColumn(MAX_VIEWPORT, ground);
    }

    method StepWest(oldPos: Position, newPos: Position, ground: Ground)
      requires Valid() && position == newPos && -1 <= newPos.y - oldPos.y <= 1
      modifies localMapCache
      ensures forall x, y {:trigger Cell(x, y)} :: InRange(x, y) ==>
        Cell(x, y) == if !InRange(x - 1, y) then (newPos.Offset(x, y) in ground)
                      else if InRange(x, y + (newPos.y - oldPos.y)) then old(Cell(x - 1, y)) else old(Cell(x, y))
    {
      var startY, endY := OldRows(oldPos, newPos);
      ShiftEast(startY, endY);
      RefillColumn(-MAX_VIEWPORT, ground);
    }

    /** The columns, for a step of at most one row. */
    method MoveColumns(oldPos: Position, newPos: Position, ground: Ground)
      requires Valid() && position == newPos && OneStep(oldPos, newPos)
      modifies localMapCache
      ensures forall x, y {:trigger Cell(x, y)} :: InRange(x, y) ==>
        var sx, sy := newPos.x - oldPos.x, newPos.y - oldPos.y;
        Cell(x, y) == if !InRange(x + sx, y) then (newPos.Offset(x, y) in ground)
                      else if InRange(x, y + sy) then old(Cell(x + sx, y)) else old(Cell(x, y))
    {
      if oldPos.x < newPos.x {
        StepEast(oldPos, newPos, ground);
      } else if oldPos.x > newPos.x {
        StepWest(oldPos, newPos, ground);
      }
    }

    /** A step: every tile that was in view moves against it, every other one is computed. */
    method Shift(oldPos: Position, newPos: Position, ground: Ground)
      requires Valid() && position == newPos && OneStep(oldPos, newPos)
      modifies localMapCache
      ensures forall x, y {:trigger Cell(x, y)} :: InRange(x, y) ==>
        var sx, sy := newPos.x - oldPos.x, newPos.y - oldPos.y;
        Cell(x, y) == if InRange(x + sx, y + sy) then old(Cell(x + sx, y + sy)) else (newPos.Offset(x, y) in ground)
    {
      MoveRows(oldPos, newPos, ground);
      MoveColumns(oldPos, newPos, ground);
    }

    /** A step keeps the map right: the old tile is computed again, as it may have changed. */
    method Step(oldPos: Position, newPos: Position, ghost before: Ground, ground: Ground)
      requires Valid() && position == oldPos && Mirrors(before) && SameBut(before, ground, {oldPos, newPos})
      requires OneStep(oldPos, newPos)
      modifies this`position, localMapCache
      ensures position == newPos && Mirrors(ground)
      ensures oldPos != newPos ==> Cell(0, 0) == (newPos in before)
    {
      position := newPos;
      ghost var sx, sy := newPos.x - oldPos.x, newPos.y - oldPos.y;
      Shift(oldPos, newPos, ground);
      assert forall x, y {:trigger Cell(x, y)} :: InRange(x, y) && (x != -sx || y != -sy) && (x != 0 || y != 0) ==>
        Cell(x, y) == (newPos.Offset(x, y) in ground);
      UpdateTileCache(oldPos.x - newPos.x, oldPos.y - newPos.y, ground);
    }

    /** The creature itself has moved: to anywhere with a full computation, or by one step on its floor.
        Only its own tile, whose bit is never read, may be out of date.
     */
    method OnMove(oldPos: Position, newPos: Position, teleport: bool, ghost before: Ground, ground: Ground)
      requires Valid() && position == oldPos && Mirrors(before) && SameBut(before, ground, {oldPos, newPos})
      requires !teleport && oldPos.z == newPos.z ==> OneStep(oldPos, newPos)
      modifies this`position, localMapCache
      ensures position == newPos && Mirrors(ground)
      ensures OneStep(oldPos, newPos) && !teleport && oldPos != newPos ==> Cell(0, 0) == (newPos in before)
    {
      if teleport || oldPos.z != newPos.z {
        position := newPos;
        UpdateMapCache(ground);
      } else {
        Step(oldPos, newPos, before, ground);
      }
    }

    /** An item was added to a tile or taken off it; `blocks` is the test that may spare the update. */
    method OnTileItem(p: Position, blocks: bool, ghost before: Ground, ground: Ground)
      requires Valid() && Mirrors(before) && SameBut(before, ground, {p}) && (!blocks ==> (p in ground <==> p in before))
      modifies localMapCache
      ensures Mirrors(ground)
    {
      if blocks && p.z == position.z {
        UpdateTileCache(p.x - position.x, p.y - position.y, ground);
      }
    }

    method OnOtherMove(from: Position, to: Position, ghost before: Ground, ground: Ground)
      requires Valid() && Mirrors(before) && SameBut(before, ground, {from, to})
      modifies localMapCache
      ensures Mirrors(ground)
    {
      if to.z == position.z {
        UpdateTileCache(to.x - position.x, to.y - position.y, ground);
      }
      if from.z == position.z {
        UpdateTileCache(from.x - position.x, from.y - position.y, ground);
      }
    }

    /** The answer for a tile: 1 for walkable, 0 for not, 2 for not known. */
    method GetWalkCache(p: Position, ghost ground: Ground) returns (answer: int)
      requires Valid() && Mirrors(ground)
      ensures answer == Answer(position, p, ground)
    {
      if position.z != p.z {
        return 0;
      }
      if p == position {
        return 1;
      }
      var dx, dy := p.x - position.x, p.y - position.y;
      if -MAX_VIEWPORT <= dx <= MAX_VIEWPORT && -MAX_VIEWPORT <= dy <= MAX_VIEWPORT {
        return if localMapCache[MAX_VIEWPORT + dy, MAX_VIEWPORT + dx] then 1 else 0;
      }
      return 2;
    }

    /** Any sequence of events keeps the answers right: the map never has to be computed again. */
    method Follow(events: seq<Event>, ghost before: Ground)
      requires Valid() && Mirrors(before) && Possible(events, position, before)
      modifies this`position, localMapCache
      ensures Mirrors(GroundAfter(events, before))
    {
      ghost var ground := before;
      for i := 0 to |events|
        invariant Mirrors(ground) && Possible(events[i..], position, ground)
        invariant GroundAfter(events[i..], ground) == GroundAfter(events, before)
      {
        assert events[i..][0] == events[i] && events[i..][1..] == events[i + 1..];
        match events[i] {
          case Move(to, teleport, after) =>
            OnMove(position, to, teleport, ground, after);
            ground := after;
          case TileItem(p, blocks, after) =>
            OnTileItem(p, blocks, ground, after);
            ground := after;
          case OtherMove(from, to, after) =>
            OnOtherMove(from, to, ground, after);
            ground := after;
        }
      }
    }
  }
}
