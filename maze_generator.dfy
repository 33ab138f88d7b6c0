/** The grid maze generator: an odd-sized all-wall grid, a monotone random
    walk from the start corner to the finish corner with diagonal side
    branches, a scatter of extra path cells, a clear area around the
    finish, and the finish cell stamped last.

    `Math.random()` is an explicit stream of draws in `[0, 1)`
    (RandomStream), so every property below holds for every stream. The
    grid is `maze[row, col]`, i.e. the source's `maze[y][x]`. */
module MazeGenerator {
  import opened Values

  /** `CELL_TYPES`. */
  datatype Cell = Path | Wall | Finish | Start

  /** The number each cell type is stored as. */
  function Code(c: Cell): (n: int)
    ensures CellOf(n) == Some(c)
  {
    match c
    case Path => 0
    case Wall => 1
    case Finish => 2
    case Start => 3
  }

  function CellOf(n: int): Option<Cell> {
    if n == 0 then Some(Path)
    else if n == 1 then Some(Wall)
    else if n == 2 then Some(Finish)
    else if n == 3 then Some(Start)
    else None
  }

  /** A value `Math.random()` can return. */
  type Unit = r: real | 0.0 <= r < 1.0

  /** The source of `Math.random()` values: a fixed infinite stream and the
      position of the next draw. */
  class RandomStream {
    const draws: nat -> Unit
    var pos: nat

    constructor (draws: nat -> Unit)
      ensures this.draws == draws && pos == 0
    {
      this.draws := draws;
      pos := 0;
    }

    method Next() returns (r: Unit)
      modifies this
      ensures pos == old(pos) + 1 && r == draws(old(pos))
    {
      r := draws(pos);
      pos := pos + 1;
    }
  }

  /** `Math.floor(r * n)` for a draw `r`: an index below `n`. */
  function ScaledFloor(r: Unit, n: int): (k: int)
    requires n > 0
    ensures 0 <= k < n
  {
    assert r * n as real < n as real by {
      assert r * n as real <= r * n as real + (1.0 - r) * n as real;
    }
    (r * n as real).Floor
  }

  // ---------------------------------------------------------------------
  // Layouts and size

  /** The complexity parameter of each of the five layouts. */
  const Complexities: seq<real> := [0.3, 0.4, 0.5, 0.25, 0.35]

  /** `generateMaze`'s layout choice: `mazeIndex % 5` with JavaScript's `%`.
      A negative index that is not a multiple of 5 selects no layout (the
      source then throws a TypeError). */
  function LayoutComplexity(mazeIndex: int): (c: Option<real>)
    ensures mazeIndex >= 0 ==> c == Some(Complexities[mazeIndex % 5])
    ensures mazeIndex % 5 == 0 ==> c == Some(0.3)
    ensures mazeIndex < 0 && mazeIndex % 5 != 0 ==> c == None
  {
    var safeIndex := TruncRem(mazeIndex, 5);
    if safeIndex >= 0 then Some(Complexities[safeIndex]) else None
  }

  /** `Math.max(5, Math.floor(n / 2) * 2 + 1)`. */
  function OddSize(n: int): (s: int)
    ensures s >= 5 && s % 2 == 1
    ensures s >= n && s <= Max(5, n + 1)
    ensures n >= 4 ==> s == (n / 2) * 2 + 1
  {
    Max(5, (n / 2) * 2 + 1)
  }

  // ---------------------------------------------------------------------
  // Grid vocabulary

  predicate InGrid(m: array2<Cell>, r: int, c: int) {
    0 <= r < m.Length0 && 0 <= c < m.Length1
  }

  predicate Interior(m: array2<Cell>, r: int, c: int) {
    0 < r < m.Length0 - 1 && 0 < c < m.Length1 - 1
  }

  /** `b` is one cell right of `a` or one cell below it. */
  predicate MonotoneStep(a: GridCoord, b: GridCoord) {
    b == GridCoord(a.x + 1, a.y) || b == GridCoord(a.x, a.y + 1)
  }

  /** Each cell of the route is one cell right of or below the previous. */
  predicate MonotoneRoute(route: seq<GridCoord>) {
    forall i :: 0 <= i < |route| - 1 ==> MonotoneStep(route[i], route[i + 1])
  }

  /** A cell strictly inside the border of a `w` by `h` grid. */
  predicate InsideBorder(c: GridCoord, w: int, h: int) {
    0 < c.x < w - 1 && 0 < c.y < h - 1
  }

  /** 4-neighbours. */
  predicate Adjacent(a: GridCoord, b: GridCoord) {
    (a.x == b.x && (a.y - b.y == 1 || b.y - a.y == 1))
    || (a.y == b.y && (a.x - b.x == 1 || b.x - a.x == 1))
  }

  /** Every cell of the route lies in the grid and is not a wall. */
  ghost predicate OpenRoute(m: array2<Cell>, route: seq<GridCoord>)
    reads m
  {
    forall i :: 0 <= i < |route| ==> InGrid(m, route[i].y, route[i].x) && m[route[i].y, route[i].x] != Wall
  }

  /** A walk to the right and down is a 4-connected chain. */
  lemma {:induction false} MonotoneRouteIsConnected(route: seq<GridCoord>)
    requires MonotoneRoute(route)
    ensures forall i :: 0 <= i < |route| - 1 ==> Adjacent(route[i], route[i + 1])
  {
    forall i | 0 <= i < |route| - 1
      ensures Adjacent(route[i], route[i + 1])
    {
      assert MonotoneStep(route[i], route[i + 1]);
    }
  }

  /** Along a walk to the right and down, the i-th cell is i steps (in the
      city-block sense) from the first; so no two cells coincide and only
      the last one is the end point. */
  lemma {:induction false} MonotoneRouteDistance(route: seq<GridCoord>, i: int)
    requires MonotoneRoute(route) && 0 <= i < |route|
    ensures route[i].x + route[i].y == route[0].x + route[0].y + i
    ensures route[i].x >= route[0].x && route[i].y >= route[0].y
  {
    if i > 0 {
      MonotoneRouteDistance(route, i - 1);
      assert MonotoneStep(route[i - 1], route[i]);
    }
  }

  /** What holds of the grid while it is being carved: no finish yet, a
      start (if any) only at (1,1), and an unbroken outer wall. */
  ghost predicate Carving(m: array2<Cell>)
    reads m
  {
    && (forall r, c :: InGrid(m, r, c) ==> m[r, c] != Finish)
    && (forall r, c :: InGrid(m, r, c) && m[r, c] == Start ==> r == 1 && c == 1)
    && (forall r, c :: InGrid(m, r, c) && !Interior(m, r, c) ==> m[r, c] == Wall)
  }

  /** Every cell either kept its value or became an interior path cell. */
  twostate predicate OnlyCarves(m: array2<Cell>)
    reads m
  {
    forall r, c :: InGrid(m, r, c) ==> m[r, c] == old(m[r, c]) || (m[r, c] == Path && Interior(m, r, c))
  }

  // ---------------------------------------------------------------------
  // The winding walk

  /** One step of the walk: right when the draw is below 0.5 or the walk is
      on the finish row, down otherwise, and down instead of right once the
      walk is in the finish column. */
  function Advance(draw: Unit, cx: int, cy: int, fx: int, fy: int): (next: GridCoord)
    ensures cx <= fx && cy <= fy && (cx < fx || cy < fy) ==>
      MonotoneStep(GridCoord(cx, cy), next) && next.x <= fx && next.y <= fy
    ensures cx <= fx && cy <= fy && (cx < fx || cy < fy) && draw < 0.5 && cx < fx ==> next == GridCoord(cx + 1, cy)
    ensures cx <= fx && cy <= fy && (cx < fx || cy < fy) && draw >= 0.5 && cy < fy ==> next == GridCoord(cx, cy + 1)
  {
    var moveHorizontal := draw < 0.5 || cy == fy;
    var moveVertical := !moveHorizontal || cx == fx;
    if moveHorizontal && cx < fx then GridCoord(cx + 1, cy)
    else if moveVertical && cy < fy then GridCoord(cx, cy + 1)
    else GridCoord(cx, cy)
  }

  /** Lines 84-94: choose the direction and carve the new cell. */
  method WalkStep(m: array2<Cell>, cx: int, cy: int, fx: int, fy: int, rng: RandomStream)
    returns (next: GridCoord)
    requires fx == m.Length1 - 2 && fy == m.Length0 - 2
    requires 1 <= cx <= fx && 1 <= cy <= fy && (cx < fx || cy < fy)
    modifies m, rng
    ensures rng.pos == old(rng.pos) + 1 && next == Advance(rng.draws(old(rng.pos)), cx, cy, fx, fy)
    ensures MonotoneStep(GridCoord(cx, cy), next) && next.x <= fx && next.y <= fy
    ensures forall r, c :: InGrid(m, r, c) ==> m[r, c] == if r == next.y && c == next.x then Path else old(m[r, c])
    ensures OnlyCarves(m)
  {
    var draw := rng.Next();
    next := Advance(draw, cx, cy, fx, fy);
    m[next.y, next.x] := Path;
  }

  /** What a side branch carves, and how many draws it takes (lines 96-119). */
  datatype Plan = Plan(cells: seq<GridCoord>, used: nat)

  function Offset(draw: Unit): int {
    if draw < 0.5 then 1 else -1
  }

  /** With probability 0.2 a diagonal neighbour of the walk cell, and with
      probability 0.5 a diagonal neighbour of that, each carved only when it
      is an interior cell; the writes do not look at what the cell held. */
  function BranchPlan(d: nat -> Unit, p: nat, cx: int, cy: int, w: int, h: int): (plan: Plan)
    ensures |plan.cells| <= 2
    ensures forall i :: 0 <= i < |plan.cells| ==> InsideBorder(plan.cells[i], w, h)
    ensures var b := GridCoord(cx + Offset(d(p + 1)), cy + Offset(d(p + 2)));
      (|plan.cells| >= 1 <==> d(p) < 0.2 && InsideBorder(b, w, h))
      && (|plan.cells| >= 1 ==> plan.cells[0] == b)
    ensures |plan.cells| >= 1 ==>
      var e := GridCoord(plan.cells[0].x + Offset(d(p + 4)), plan.cells[0].y + Offset(d(p + 5)));
      (|plan.cells| == 2 <==> d(p + 3) < 0.5 && InsideBorder(e, w, h))
      && (|plan.cells| == 2 ==> plan.cells[1] == e)
    ensures plan.used == if d(p) >= 0.2 then 1 else if |plan.cells| == 0 then 3 else if d(p + 3) >= 0.5 then 4 else 6
  {
    if d(p) >= 0.2 then Plan([], 1)
    else
      var branchX := cx + Offset(d(p + 1));
      var branchY := cy + Offset(d(p + 2));
      if !(branchX > 0 && branchX < w - 1 && branchY > 0 && branchY < h - 1) then Plan([], 3)
      else
        var tail := ExtendPlan(d, p + 3, branchX, branchY, w, h);
        Plan([GridCoord(branchX, branchY)] + tail.cells, 3 + tail.used)
  }

  /** The second half of a branch: with probability 0.5 a diagonal
      neighbour of the branch cell, carved only when it is interior. */
  function ExtendPlan(d: nat -> Unit, p: nat, x: int, y: int, w: int, h: int): (plan: Plan)
    ensures |plan.cells| <= 1
    ensures var e := GridCoord(x + Offset(d(p + 1)), y + Offset(d(p + 2)));
      (|plan.cells| == 1 <==> d(p) < 0.5 && InsideBorder(e, w, h))
      && (|plan.cells| == 1 ==> plan.cells[0] == e)
    ensures plan.used == if d(p) < 0.5 then 3 else 1
  {
    if d(p) >= 0.5 then Plan([], 1)
    else
      var extendX := x + Offset(d(p + 1));
      var extendY := y + Offset(d(p + 2));
      if extendX > 0 && extendX < w - 1 && extendY > 0 && extendY < h - 1 then Plan([GridCoord(extendX, extendY)], 3)
      else Plan([], 3)
  }

  /** A branch from walk cell (2,2) can land on the start cell (1,1): the
      start is not protected from the branch writes. */
  lemma BranchCanHitStart(d: nat -> Unit, p: nat)
    requires d(p) == 0.1 && d(p + 1) == 0.9 && d(p + 2) == 0.9 && d(p + 3) == 0.9
    ensures BranchPlan(d, p, 2, 2, 5, 5).cells == [GridCoord(1, 1)]
  {
  }

  /** Lines 96-119: the side branch. */
  method Branch(m: array2<Cell>, cx: int, cy: int, rng: RandomStream)
    modifies m, rng
    ensures var plan := BranchPlan(rng.draws, old(rng.pos), cx, cy, m.Length1, m.Length0);
      rng.pos == old(rng.pos) + plan.used
      && forall r, c :: InGrid(m, r, c) ==> m[r, c] == if GridCoord(c, r) in plan.cells then Path else old(m[r, c])
    ensures OnlyCarves(m)
  {
    var w, h := m.Length1, m.Length0;
    var chance := rng.Next();
    if chance < 0.2 {
      var sx := rng.Next();
      var sy := rng.Next();
      var branchX, branchY := cx + Offset(sx), cy + Offset(sy);
      if branchX > 0 && branchX < w - 1 && branchY > 0 && branchY < h - 1 {
        m[branchY, branchX] := Path;
        Extend(m, branchX, branchY, rng);
      }
    }
  }

  /** Lines 105-117: the extension of a branch from (x, y). */
  method Extend(m: array2<Cell>, x: int, y: int, rng: RandomStream)
    modifies m, rng
    ensures var plan := ExtendPlan(rng.draws, old(rng.pos), x, y, m.Length1, m.Length0);
      rng.pos == old(rng.pos) + plan.used
      && forall r, c :: InGrid(m, r, c) ==> m[r, c] == if GridCoord(c, r) in plan.cells then Path else old(m[r, c])
    ensures OnlyCarves(m)
  {
    var w, h := m.Length1, m.Length0;
    var extend := rng.Next();
    if extend < 0.5 {
      var ex := rng.Next();
      var ey := rng.Next();
      var extendX, extendY := x + Offset(ex), y + Offset(ey);
      if extendX > 0 && extendX < w - 1 && extendY > 0 && extendY < h - 1 {
        m[extendY, extendX] := Path;
      }
    }
  }

  // ---------------------------------------------------------------------
  // The random rooms

  /** `[dx, dy]` choices for the neighbour of a scattered cell. */
  const RoomDirections: seq<(int, int)> := [(0, 1), (1, 0), (0, -1), (-1, 0)]

  /** Lines 124-145 when the chosen cell was a wall: the cell, and with
      probability 0.4 one orthogonal neighbour when that is interior; the
      neighbour is carved whatever it held. */
  function RoomPlan(d: nat -> Unit, p: nat, w: int, h: int): (plan: Plan)
    requires w >= 3 && h >= 3
    ensures 1 <= |plan.cells| <= 2
    ensures plan.cells[0] == GridCoord(1 + ScaledFloor(d(p), w - 2), 1 + ScaledFloor(d(p + 1), h - 2))
    ensures forall i :: 0 <= i < |plan.cells| ==> InsideBorder(plan.cells[i], w, h)
    ensures var dir := RoomDirections[ScaledFloor(d(p + 3), 4)];
      var n := GridCoord(plan.cells[0].x + dir.0, plan.cells[0].y + dir.1);
      (|plan.cells| == 2 <==> d(p + 2) < 0.4 && InsideBorder(n, w, h))
      && (|plan.cells| == 2 ==> plan.cells[1] == n && Adjacent(plan.cells[0], n))
    ensures plan.used == if d(p + 2) < 0.4 then 4 else 3
  {
    var rx := 1 + ScaledFloor(d(p), w - 2);
    var ry := 1 + ScaledFloor(d(p + 1), h - 2);
    if d(p + 2) >= 0.4 then Plan([GridCoord(rx, ry)], 3)
    else
      var dir := RoomDirections[ScaledFloor(d(p + 3), |RoomDirections|)];
      var nx, ny := rx + dir.0, ry + dir.1;
      if nx > 0 && nx < w - 1 && ny > 0 && ny < h - 1 then Plan([GridCoord(rx, ry), GridCoord(nx, ny)], 4)
      else Plan([GridCoord(rx, ry)], 4)
  }

  /** One iteration of the random-room loop: a cell that is not a wall is
      left alone (two draws used); a wall cell is carved as RoomPlan says. */
  method ScatterOne(m: array2<Cell>, rng: RandomStream)
    requires m.Length0 >= 3 && m.Length1 >= 3
    modifies m, rng
    ensures var p := old(rng.pos);
      var plan := RoomPlan(rng.draws, p, m.Length1, m.Length0);
      var wasWall := old(m[plan.cells[0].y, plan.cells[0].x]) == Wall;
      rng.pos == p + (if wasWall then plan.used else 2)
      && forall r, c :: InGrid(m, r, c) ==>
           m[r, c] == if wasWall && GridCoord(c, r) in plan.cells then Path else old(m[r, c])
    ensures OnlyCarves(m)
  {
    var w, h := m.Length1, m.Length0;
    ghost var plan := RoomPlan(rng.draws, rng.pos, w, h);
    var a := rng.Next();
    var b := rng.Next();
    var rx := 1 + ScaledFloor(a, w - 2);
    var ry := 1 + ScaledFloor(b, h - 2);
    assert plan.cells[0] == GridCoord(rx, ry);
    if m[ry, rx] == Wall {
      m[ry, rx] := Path;
      var grow := rng.Next();
      if grow < 0.4 {
        var k := rng.Next();
        var dir := RoomDirections[ScaledFloor(k, |RoomDirections|)];
        var nx, ny := rx + dir.0, ry + dir.1;
        if nx > 0 && nx < w - 1 && ny > 0 && ny < h - 1 {
          assert plan.cells == [GridCoord(rx, ry), GridCoord(nx, ny)];
          m[ny, nx] := Path;
        } else {
          assert plan.cells == [GridCoord(rx, ry)];
        }
      } else {
        assert plan.cells == [GridCoord(rx, ry)];
      }
    }
  }

  // ---------------------------------------------------------------------
  // Recursive backtracking (`carvePassages`)

  /** `[dx, dy]` steps of two cells: down, right, up, left. */
  const CarveDirections: seq<(int, int)> := [(0, 2), (2, 0), (0, -2), (-2, 0)]

  /** `directions.sort(() => Math.random() - 0.5)`: some order of the four
      directions chosen by the draws. Which order a random comparator
      produces depends on the engine's sort; here each draw picks the next
      direction among those left. */
  method ShuffleDirections(rng: RandomStream) returns (order: seq<(int, int)>)
    modifies rng
    ensures multiset(order) == multiset(CarveDirections)
  {
    var left := CarveDirections;
    order := [];
    while |left| > 0
      invariant multiset(order) + multiset(left) == multiset(CarveDirections)
    {
      var draw := rng.Next();
      var k := ScaledFloor(draw, |left|);
      assert left == left[..k] + [left[k]] + left[k + 1..];
      order := order + [left[k]];
      left := left[..k] + left[k + 1..];
    }
  }

  /** The walls of the grid, as (row, column) pairs. */
  function WallCells(m: array2<Cell>): set<(int, int)>
    reads m
  {
    set r, c | 0 <= r < m.Length0 && 0 <= c < m.Length1 && m[r, c] == Wall :: (r, c)
  }

  /** Carving never creates a wall. */
  twostate lemma WallsOnlyShrink(m: array2<Cell>)
    requires OnlyCarves(m)
    ensures WallCells(m) <= old(WallCells(m))
  {
  }

  /** `carvePassages(x, y, …)`: from an interior cell, visit the four
      directions in shuffled order and, for each one leading two cells away
      to an interior wall, carve the cell between and the target and recurse
      from the target; then, with probability `complexity`, carve a random
      odd cell that is still a wall and recurse from it. The source calls it
      only from a branch that never runs (`createInterestingMaze` is the
      constant `true`). Every recursive call removes a wall, so it ends. */
  method CarvePassages(x: int, y: int, m: array2<Cell>, width: int, height: int, complexity: real,
                       rng: RandomStream)
    requires width == m.Length1 && height == m.Length0 && width % 2 == 1 && height % 2 == 1
    requires 0 < x < width - 1 && 0 < y < height - 1
    modifies m, rng
    ensures OnlyCarves(m)
    decreases WallCells(m)
  {
    var order := ShuffleDirections(rng);
    var i := 0;
    while i < |order|
      invariant OnlyCarves(m)
    {
      var (dx, dy) := order[i];
      assert (dx, dy) in multiset(CarveDirections);
      var nx, ny := x + dx, y + dy;
      if nx > 0 && nx < width - 1 && ny > 0 && ny < height - 1 && m[ny, nx] == Wall {
        assert (ny, nx) in old(WallCells(m));
        m[y + dy / 2, x + dx / 2] := Path;
        m[ny, nx] := Path;
        WallsOnlyShrink(m);
        assert (ny, nx) !in WallCells(m);
        CarvePassages(nx, ny, m, width, height, complexity, rng);
      }
      i := i + 1;
    }
    var chance := rng.Next();
    if chance < complexity {
      var a := rng.Next();
      var b := rng.Next();
      var rx := 1 + 2 * ScaledFloor(a, (width - 1) / 2);
      var ry := 1 + 2 * ScaledFloor(b, (height - 1) / 2);
      if m[ry, rx] == Wall {
        assert (ry, rx) in old(WallCells(m));
        m[ry, rx] := Path;
        WallsOnlyShrink(m);
        assert (ry, rx) !in WallCells(m);
        CarvePassages(rx, ry, m, width, height, complexity, rng);
      }
    }
  }

  // ---------------------------------------------------------------------
  // The finish

  /** An interior path cell at (x, y). */
  predicate OpenAt(m: array2<Cell>, x: int, y: int)
    reads m
  {
    0 < x < m.Length1 - 1 && 0 < y < m.Length0 - 1 && m[y, x] == Path
  }

  /** Some interior 4-neighbour of (fx, fy) is a path cell. */
  predicate PathNeighbour(m: array2<Cell>, fx: int, fy: int)
    reads m
  {
    OpenAt(m, fx, fy + 1) || OpenAt(m, fx + 1, fy) || OpenAt(m, fx, fy - 1) || OpenAt(m, fx - 1, fy)
  }

  /** `[dx, dy]` in the order `ensurePathToFinish` tries them. */
  const FinishDirections: seq<(int, int)> := [(0, 1), (1, 0), (0, -1), (-1, 0)]

  /** `ensurePathToFinish`: when no interior 4-neighbour of the finish is a
      path cell, the cell to its left becomes one; otherwise nothing
      changes. */
  method EnsurePathToFinish(m: array2<Cell>, fx: int, fy: int) returns (hasPath: bool)
    requires m.Length0 >= 1 && 0 <= fy < m.Length0 && 1 <= fx <= m.Length1
    modifies m
    ensures hasPath == old(PathNeighbour(m, fx, fy))
    ensures forall r, c :: InGrid(m, r, c) ==>
      m[r, c] == if !hasPath && r == fy && c == fx - 1 then Path else old(m[r, c])
    ensures 1 < fx < m.Length1 && 0 < fy < m.Length0 - 1 ==> PathNeighbour(m, fx, fy)
  {
    hasPath := false;
    var i := 0;
    while i < |FinishDirections|
      invariant 0 <= i <= |FinishDirections|
      invariant !hasPath
      invariant forall j :: 0 <= j < i ==> !OpenAt(m, fx + FinishDirections[j].0, fy + FinishDirections[j].1)
    {
      var nx, ny := fx + FinishDirections[i].0, fy + FinishDirections[i].1;
      if nx > 0 && nx < m.Length1 - 1 && ny > 0 && ny < m.Length0 - 1 {
        if m[ny, nx] == Path {
          hasPath := true;
          assert OpenAt(m, nx, ny);
          assert PathNeighbour(m, fx, fy) by {
            assert i == 0 || i == 1 || i == 2 || i == 3;
          }
          break;
        }
      }
      i := i + 1;
    }
    if !hasPath {
      assert !PathNeighbour(m, fx, fy) by {
        assert !OpenAt(m, fx + FinishDirections[0].0, fy + FinishDirections[0].1);
        assert !OpenAt(m, fx + FinishDirections[1].0, fy + FinishDirections[1].1);
        assert !OpenAt(m, fx + FinishDirections[2].0, fy + FinishDirections[2].1);
        assert !OpenAt(m, fx + FinishDirections[3].0, fy + FinishDirections[3].1);
      }
      m[fy, fx - 1] := Path;
    }
  }

  /** The cells the finish block writes as paths: the interior 2x2 block
      whose lower-right cell is the finish (the 3x3 loop is clamped to the
      interior), and the four cells orthogonally next to the finish, two of
      which lie on the outer border. */
  predicate InApron(r: int, c: int, h: int, w: int) {
    (h - 3 <= r <= h - 2 && w - 3 <= c <= w - 2)
    || (r == h - 1 && c == w - 2)
    || (r == h - 2 && c == w - 1)
  }

  /** Lines 159-181: clear the finish block and stamp the finish last. */
  method StampFinish(m: array2<Cell>)
    requires m.Length0 >= 5 && m.Length1 >= 5
    modifies m
    ensures forall r, c :: InGrid(m, r, c) ==>
      m[r, c] == if r == m.Length0 - 2 && c == m.Length1 - 2 then Finish
                 else if InApron(r, c, m.Length0, m.Length1) then Path
                 else old(m[r, c])
  {
    var h, w := m.Length0, m.Length1;
    var finishX, finishY := w - 2, h - 2;
    var y0, y1 := Max(1, finishY - 1), Min(h - 2, finishY + 1);
    var x0, x1 := Max(1, finishX - 1), Min(w - 2, finishX + 1);
    var y := y0;
    while y <= y1
      invariant y0 <= y <= y1 + 1
      invariant forall r, c :: InGrid(m, r, c) ==>
        m[r, c] == if y0 <= r < y && x0 <= c <= x1 then Path else old(m[r, c])
    {
      var x := x0;
      while x <= x1
        invariant x0 <= x <= x1 + 1
        invariant forall r, c :: InGrid(m, r, c) ==>
          m[r, c] == if (y0 <= r < y && x0 <= c <= x1) || (r == y && x0 <= c < x) then Path else old(m[r, c])
      {
        m[y, x] := Path;
        x := x + 1;
      }
      y := y + 1;
    }
    m[finishY - 1, finishX] := Path;
    m[finishY, finishX - 1] := Path;
    m[finishY + 1, finishX] := Path;
    m[finishY, finishX + 1] := Path;
    m[finishY, finishX] := Finish;
  }

  // ---------------------------------------------------------------------
  // The whole generator

  /** What a generated maze looks like. `route` is the winding walk. */
  ghost predicate WellGenerated(m: array2<Cell>, route: seq<GridCoord>)
    reads m
  {
    var h, w := m.Length0, m.Length1;
    && h >= 5 && w >= 5 && h % 2 == 1 && w % 2 == 1
    // the walk: (w-3)+(h-3) steps from (1,1) to the finish, right or down each time
    && |route| == (w - 3) + (h - 3) + 1
    && route[0] == GridCoord(1, 1) && route[|route| - 1] == GridCoord(w - 2, h - 2)
    && MonotoneRoute(route) && OpenRoute(m, route)
    && (forall i :: 1 <= i < |route| - 1 ==> m[route[i].y, route[i].x] == Path)
    // exactly one finish, at (w-2, h-2), with its clear block
    && m[h - 2, w - 2] == Finish
    && (forall r, c :: InGrid(m, r, c) && m[r, c] == Finish ==> r == h - 2 && c == w - 2)
    && (forall r, c :: InGrid(m, r, c) && InApron(r, c, h, w) && !(r == h - 2 && c == w - 2) ==> m[r, c] == Path)
    // a start, if one survived, only at (1,1)
    && (forall r, c :: InGrid(m, r, c) && m[r, c] == Start ==> r == 1 && c == 1)
    // the outer wall, broken only below and to the right of the finish
    && (forall r, c :: InGrid(m, r, c) && !Interior(m, r, c) && !InApron(r, c, h, w) ==> m[r, c] == Wall)
  }

  /** The grid after the winding walk and the rooms: odd-sized, carved
      only in the interior, with the walk's route open and its cells after
      the start paths. */
  ghost predicate Walked(m: array2<Cell>, route: seq<GridCoord>)
    reads m
  {
    var h, w := m.Length0, m.Length1;
    && h >= 5 && w >= 5 && h % 2 == 1 && w % 2 == 1
    && |route| == (w - 3) + (h - 3) + 1
    && route[0] == GridCoord(1, 1) && route[|route| - 1] == GridCoord(w - 2, h - 2)
    && MonotoneRoute(route) && OpenRoute(m, route)
    && (forall i :: 1 <= i < |route| ==> m[route[i].y, route[i].x] == Path)
    && Carving(m)
  }

  /** The walk so far: a monotone route of open cells from the start to
      the current cell `(cx, cy)`, every cell after the start a path. */
  ghost predicate WalkedTo(m: array2<Cell>, route: seq<GridCoord>, cx: int, cy: int)
    reads m
  {
    && m.Length0 >= 5 && m.Length1 >= 5
    && 1 <= cx <= m.Length1 - 2 && 1 <= cy <= m.Length0 - 2
    && |route| == (cx - 1) + (cy - 1) + 1
    && route[0] == GridCoord(1, 1) && route[|route| - 1] == GridCoord(cx, cy)
    && MonotoneRoute(route) && OpenRoute(m, route)
    && (forall i :: 1 <= i < |route| ==> m[route[i].y, route[i].x] == Path)
    && Carving(m)
  }

  /** One iteration of the walk loop: a step and its side branch. */
  method Stride(maze: array2<Cell>, cx: int, cy: int, rng: RandomStream, ghost route: seq<GridCoord>)
    returns (next: GridCoord)
    requires WalkedTo(maze, route, cx, cy)
    requires cx < maze.Length1 - 2 || cy < maze.Length0 - 2
    modifies maze, rng
    ensures MonotoneStep(GridCoord(cx, cy), next)
    ensures WalkedTo(maze, route + [next], next.x, next.y)
  {
    next := WalkStep(maze, cx, cy, maze.Length1 - 2, maze.Length0 - 2, rng);
    assert WalkedTo(maze, route + [next], next.x, next.y);
    Branch(maze, next.x, next.y, rng);
  }

  /** Lines 79-120: the winding walk from the start to the finish cell, with
      its side branches. */
  method WindingWalk(maze: array2<Cell>, rng: RandomStream) returns (ghost route: seq<GridCoord>)
    requires maze.Length0 >= 5 && maze.Length1 >= 5 && maze.Length0 % 2 == 1 && maze.Length1 % 2 == 1
    requires Carving(maze) && maze[1, 1] == Start
    modifies maze, rng
    ensures Walked(maze, route)
  {
    var finishX, finishY := maze.Length1 - 2, maze.Length0 - 2;
    var currentX, currentY := 1, 1;
    route := [GridCoord(1, 1)];
    while currentX < finishX || currentY < finishY
      invariant WalkedTo(maze, route, currentX, currentY)
      decreases (finishX - currentX) + (finishY - currentY)
    {
      var next := Stride(maze, currentX, currentY, rng, route);
      route := route + [next];
      currentX, currentY := next.x, next.y;
    }
  }

  /** Lines 123-147: `for (let i = 0; i < w * h * 0.15; i++)` scattered
      cells. */
  method ScatterRooms(maze: array2<Cell>, rng: RandomStream, ghost route: seq<GridCoord>)
    requires Walked(maze, route)
    modifies maze, rng
    ensures Walked(maze, route) && OnlyCarves(maze)
  {
    var cells := maze.Length1 * maze.Length0;
    var i := 0;
    while (i as real) < (cells as real) * 0.15
      invariant Walked(maze, route) && OnlyCarves(maze)
      decreases cells - i
    {
      ScatterOne(maze, rng);
      i := i + 1;
    }
  }

  /** `generateRandomMaze` (the branch the source takes: `createInterestingMaze`
      is always true, so `complexity` is not used). */
  method GenerateRandomMaze(width: int, height: int, complexity: real, rng: RandomStream)
    returns (maze: array2<Cell>, ghost route: seq<GridCoord>)
    modifies rng
    ensures fresh(maze)
    ensures maze.Length0 == OddSize(height) && maze.Length1 == OddSize(width)
    ensures WellGenerated(maze, route)
  {
    var w := OddSize(width);
    var h := OddSize(height);
    maze := new Cell[h, w]((r, c) => Wall);
    var startX, startY := 1, 1;
    maze[startY, startX] := Start;
    var finishX, finishY := w - 2, h - 2;

    route := WindingWalk(maze, rng);
    ScatterRooms(maze, rng, route);
    var _ := EnsurePathToFinish(maze, finishX, finishY);
    assert Walked(maze, route);
    FinishBlock(maze, route);
  }

  /** The last step of the generator: the finish block stamped over a
      walked grid gives a well-generated maze. */
  method FinishBlock(maze: array2<Cell>, ghost route: seq<GridCoord>)
    requires Walked(maze, route)
    modifies maze
    ensures WellGenerated(maze, route)
  {
    StampFinish(maze);
    forall i | 1 <= i < |route| - 1
      ensures maze[route[i].y, route[i].x] == Path
    {
      MonotoneRouteDistance(route, i);
      MonotoneRouteDistance(route, |route| - 1);
    }
  }

  /** `generateMaze(width, height, mazeIndex)`: the layout for
      `mazeIndex % 5`. A fourth (seed) argument is ignored by the source, so
      the model has none. */
  method GenerateMaze(width: int, height: int, mazeIndex: int, rng: RandomStream)
    returns (maze: array2<Cell>, ghost route: seq<GridCoord>)
    requires LayoutComplexity(mazeIndex).Some?
    modifies rng
    ensures fresh(maze)
    ensures maze.Length0 == OddSize(height) && maze.Length1 == OddSize(width)
    ensures WellGenerated(maze, route)
  {
    maze, route := GenerateRandomMaze(width, height, LayoutComplexity(mazeIndex).value, rng);
  }
}
