/** The start/finish scans the scene and the maze-logic hook run over a
    generated grid: a row-major scan in which the last START and the last
    FINISH cell win, the cell-to-world mapping, the scene's bottom-right
    fallback (which also writes FINISH into the grid), and the hook's
    keep-if-equal setters. */
module MazeScan {
  import opened Values
  import opened MazeGenerator

  /** `(r1, c1)` comes no later than `(r2, c2)` in row-major order. */
  predicate NotAfter(a: (int, int), b: (int, int)) {
    a.0 < b.0 || (a.0 == b.0 && a.1 <= b.1)
  }

  /** The last column below `k` of row `r` holding `cell`. */
  function LastInRow(m: array2<Cell>, cell: Cell, r: int, k: int): (col: Option<int>)
    requires 0 <= r < m.Length0 && 0 <= k <= m.Length1
    reads m
    ensures col.Some? ==> 0 <= col.value < k && m[r, col.value] == cell
    ensures col.Some? ==> forall c :: col.value < c < k ==> m[r, c] != cell
    ensures col.None? ==> forall c :: 0 <= c < k ==> m[r, c] != cell
    decreases k
  {
    if k == 0 then None
    else if m[r, k - 1] == cell then Some(k - 1)
    else LastInRow(m, cell, r, k - 1)
  }

  /** The last cell holding `cell` among the first `n` rows, in row-major
      order. */
  function LastIn(m: array2<Cell>, cell: Cell, n: int): (at: Option<(int, int)>)
    requires 0 <= n <= m.Length0
    reads m
    ensures at.Some? ==> 0 <= at.value.0 < n && 0 <= at.value.1 < m.Length1 && m[at.value.0, at.value.1] == cell
    ensures at.Some? ==> forall r, c :: 0 <= r < n && 0 <= c < m.Length1 && m[r, c] == cell ==> NotAfter((r, c), at.value)
    ensures at.None? ==> forall r, c :: 0 <= r < n && 0 <= c < m.Length1 ==> m[r, c] != cell
    decreases n, 0
  {
    if n == 0 then None
    else LastUpTo(m, cell, n - 1, m.Length1)
  }

  /** The last cell holding `cell` before column `k` of row `r`, rows above
      included. */
  function LastUpTo(m: array2<Cell>, cell: Cell, r: int, k: int): (at: Option<(int, int)>)
    requires 0 <= r < m.Length0 && 0 <= k <= m.Length1
    reads m
    ensures at.Some? ==> 0 <= at.value.0 <= r && 0 <= at.value.1 < m.Length1 && m[at.value.0, at.value.1] == cell
    ensures at.Some? ==> forall r', c :: 0 <= c < m.Length1 && (0 <= r' < r || (r' == r && c < k)) && m[r', c] == cell ==>
      NotAfter((r', c), at.value)
    ensures at.None? ==> forall r', c :: 0 <= c < m.Length1 && (0 <= r' < r || (r' == r && c < k)) ==> m[r', c] != cell
    decreases r, 1
  {
    match LastInRow(m, cell, r, k)
    case Some(c) => Some((r, c))
    case None => LastIn(m, cell, r)
  }

  /** One more cell of the scan: the cell itself wins when it holds `cell`. */
  lemma LastUpToStep(m: array2<Cell>, cell: Cell, r: int, k: int)
    requires 0 <= r < m.Length0 && 0 <= k < m.Length1
    ensures LastUpTo(m, cell, r, k + 1) == if m[r, k] == cell then Some((r, k)) else LastUpTo(m, cell, r, k)
  {
  }

  /** `[col - width / 2, 0.5, row - height / 2]`, with the width and height
      of the requested maze size (not of the grid). */
  function CellPosition(row: int, col: int, width: real, height: real): (p: Vec3)
    ensures p.y == 0.5
    ensures p.x + width / 2.0 == col as real && p.z + height / 2.0 == row as real
  {
    Vec3(col as real - width / 2.0, 0.5, row as real - height / 2.0)
  }

  /** The start position before any START cell is seen. */
  const DefaultStart: Vec3 := Vec3(0.0, 0.5, 0.0)

  function OrDefault(p: Option<Vec3>): Vec3 {
    match p
    case None => DefaultStart
    case Some(q) => q
  }

  function Located(at: Option<(int, int)>, width: real, height: real): Option<Vec3> {
    match at
    case None => None
    case Some(rc) => Some(CellPosition(rc.0, rc.1, width, height))
  }

  /** The start position the scan finds. */
  function StartOf(m: array2<Cell>, width: real, height: real): Vec3
    reads m
  {
    OrDefault(Located(LastIn(m, Start, m.Length0), width, height))
  }

  /** The finish position the scan finds, if any. */
  function FinishOf(m: array2<Cell>, width: real, height: real): Option<Vec3>
    reads m
  {
    Located(LastIn(m, Finish, m.Length0), width, height)
  }

  /** The row-major scan (MazeScene.jsx lines 55-83, useMazeLogic.js lines
      27-41): each START cell replaces the start position and each FINISH
      cell the finish position, so the last one of each wins. */
  method ScanGrid(m: array2<Cell>, width: real, height: real) returns (startPos: Vec3, finishPos: Option<Vec3>)
    ensures startPos == StartOf(m, width, height)
    ensures finishPos == FinishOf(m, width, height)
  {
    startPos := DefaultStart;
    finishPos := None;
    var rowIndex := 0;
    while rowIndex < m.Length0
      invariant 0 <= rowIndex <= m.Length0
      invariant startPos == OrDefault(Located(LastIn(m, Start, rowIndex), width, height))
      invariant finishPos == Located(LastIn(m, Finish, rowIndex), width, height)
    {
      var colIndex := 0;
      while colIndex < m.Length1
        invariant 0 <= colIndex <= m.Length1
        invariant startPos == OrDefault(Located(LastUpTo(m, Start, rowIndex, colIndex), width, height))
        invariant finishPos == Located(LastUpTo(m, Finish, rowIndex, colIndex), width, height)
      {
        LastUpToStep(m, Start, rowIndex, colIndex);
        LastUpToStep(m, Finish, rowIndex, colIndex);
        var cell := m[rowIndex, colIndex];
        if cell == Start {
          startPos := CellPosition(rowIndex, colIndex, width, height);
        } else if cell == Finish {
          finishPos := Some(CellPosition(rowIndex, colIndex, width, height));
        }
        colIndex := colIndex + 1;
      }
      rowIndex := rowIndex + 1;
    }
  }

  /** A grid with exactly one FINISH cell is found there. */
  lemma OnlyFinishFound(m: array2<Cell>, r0: int, c0: int)
    requires InGrid(m, r0, c0) && m[r0, c0] == Finish
    requires forall r, c :: InGrid(m, r, c) && m[r, c] == Finish ==> r == r0 && c == c0
    ensures LastIn(m, Finish, m.Length0) == Some((r0, c0))
  {
  }

  // ---------------------------------------------------------------------
  // MazeScene

  /** The finish position the scene falls back to: the bottom-right cell. */
  function CornerPosition(m: array2<Cell>, width: real, height: real): Vec3 {
    CellPosition(m.Length0 - 1, m.Length1 - 1, width, height)
  }

  /** The scene's effect (MazeScene.jsx lines 32-132): scan, and when no
      FINISH was found use the bottom-right cell as the finish and write
      FINISH into it. `mazeData[0]` is read before the scan, so the grid
      needs a row. */
  method SceneScan(m: array2<Cell>, width: real, height: real) returns (startPos: Vec3, finishPos: Vec3)
    requires m.Length0 > 0
    modifies m
    ensures startPos == old(StartOf(m, width, height))
    ensures old(FinishOf(m, width, height)).Some? ==> finishPos == old(FinishOf(m, width, height)).value
    ensures old(FinishOf(m, width, height)).None? ==> finishPos == CornerPosition(m, width, height)
    ensures old(FinishOf(m, width, height)).Some? ==> unchanged(m)
    ensures forall r, c :: InGrid(m, r, c) ==>
      m[r, c] == if old(FinishOf(m, width, height)).None? && r == m.Length0 - 1 && c == m.Length1 - 1 then Finish
                 else old(m[r, c])
  {
    var found;
    startPos, found := ScanGrid(m, width, height);
    var foundFinish := found.Some?;
    if !foundFinish {
      var lastRowIndex, lastColIndex := m.Length0 - 1, m.Length1 - 1;
      finishPos := CellPosition(lastRowIndex, lastColIndex, width, height);
      if 0 <= lastRowIndex < m.Length0 && 0 <= lastColIndex < m.Length1 {
        m[lastRowIndex, lastColIndex] := Finish;
      }
    } else {
      finishPos := found.value;
    }
  }

  /** After the scene's effect the grid holds a FINISH cell whenever it has
      a cell at all, and a second run of the effect neither writes nor moves
      the finish. */
  method SceneScanTwice(m: array2<Cell>, width: real, height: real)
    returns (first: Vec3, second: Vec3)
    requires m.Length0 > 0 && m.Length1 > 0
    modifies m
    ensures FinishOf(m, width, height).Some?
    ensures first == second
  {
    var s1, s2;
    ghost var foundBefore := FinishOf(m, width, height).Some?;
    s1, first := SceneScan(m, width, height);
    if !foundBefore {
      var corner := (m.Length0 - 1, m.Length1 - 1);
      assert m[corner.0, corner.1] == Finish;
      assert LastIn(m, Finish, m.Length0).Some?;
      assert LastIn(m, Finish, m.Length0) == Some(corner);
    }
    s2, second := SceneScan(m, width, height);
  }

  /** The scene asks for a 20x20 maze; the generator makes it 21x21 with its
      only FINISH at row 19, column 19, so the scan finds the finish at
      world (9, 0.5, 9), the fallback never fires and the grid is not
      written. */
  method SceneOnGeneratedMaze(mazeIndex: int, rng: RandomStream)
    returns (maze: array2<Cell>, startPos: Vec3, finishPos: Vec3)
    requires LayoutComplexity(mazeIndex).Some?
    modifies rng
    ensures maze.Length0 == 21 && maze.Length1 == 21
    ensures finishPos == Vec3(9.0, 0.5, 9.0)
    ensures startPos == Vec3(-9.0, 0.5, -9.0) || startPos == DefaultStart
    ensures maze[19, 19] == Finish && maze[20, 20] == Wall
  {
    ghost var route;
    maze, route := GenerateMaze(20, 20, mazeIndex, rng);
    OnlyFinishFound(maze, 19, 19);
    var at := LastIn(maze, Start, maze.Length0);
    if at.Some? {
      assert at.value == (1, 1);
    }
    startPos, finishPos := SceneScan(maze, 20.0, 20.0);
  }

  // ---------------------------------------------------------------------
  // useMazeLogic

  /** The finish the hook settles on: the scanned one, or the grid's
      bottom-right cell (the grid itself is not written). */
  function LogicFinish(m: array2<Cell>, width: real, height: real): Vec3
    reads m
  {
    match FinishOf(m, width, height)
    case Some(p) => p
    case None => CornerPosition(m, width, height)
  }

  /** The hook's two pieces of state. */
  class MazeLogic {
    var playerStartPosition: Vec3
    var finishPosition: Option<Vec3>

    constructor ()
      ensures playerStartPosition == DefaultStart && finishPosition == None
    {
      playerStartPosition := DefaultStart;
      finishPosition := None;
    }

    /** The effect (useMazeLogic.js lines 21-60): scan, then set each
        position through a setter that keeps the previous value when the
        new one is equal. The flags say whether a setter replaced its
        value. The fallback needs `generatedMaze[0]` only when no FINISH
        was found. */
    method Recompute(m: array2<Cell>, width: real, height: real) returns (startChanged: bool, finishChanged: bool)
      requires m.Length0 > 0
      modifies this
      ensures playerStartPosition == StartOf(m, width, height)
      ensures finishPosition == Some(LogicFinish(m, width, height))
      ensures startChanged <==> old(playerStartPosition) != StartOf(m, width, height)
      ensures finishChanged <==> old(finishPosition) != Some(LogicFinish(m, width, height))
    {
      var startPos, finishPos := ScanGrid(m, width, height);
      startChanged := playerStartPosition != startPos;
      if startChanged {
        playerStartPosition := startPos;
      }
      var newPos := match finishPos
        case Some(p) => p
        case None => CellPosition(m.Length0 - 1, m.Length1 - 1, width, height);
      finishChanged := finishPosition != Some(newPos);
      if finishChanged {
        finishPosition := Some(newPos);
      }
    }
  }

  /** Re-running the hook's effect on an unchanged grid and size replaces
      neither value. */
  method RecomputeIsStable(logic: MazeLogic, m: array2<Cell>, width: real, height: real)
    returns (startChanged: bool, finishChanged: bool)
    requires m.Length0 > 0
    modifies logic
    ensures !startChanged && !finishChanged
  {
    var _, _ := logic.Recompute(m, width, height);
    startChanged, finishChanged := logic.Recompute(m, width, height);
  }
}
