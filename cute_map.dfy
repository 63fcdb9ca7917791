/*
 * The console's map (Cute/map.cpp, constants in Cute/map.h): a 20 x 20
 * matrix of cell codes, edited in place, with the coordinates of the
 * robot's cell and of the destination (-1 while unset) and a flag saying
 * whether clicks on the map are taken. Qt signals are not modelled; the
 * error popup a click can raise is the result of the click handler.
 */
module CuteMap {
  import opened Text
  import Trajectory
  import opened Protocol

  const Rows := 20
  const Cols := 20

  // cell_value
  const ObstacleCell := 0
  const Cartographied := 1
  const NonCartographied := 2
  const WaypointCell := 3
  const DestinationCell := 4
  const RobotCell := 5

  /** The popup shown when the clicked cell is not one the robot can reach. */
  const UnreachablePopup := 4

  predicate InRange(y: int, x: int)
  {
    0 <= x < Cols && 0 <= y < Rows
  }

  // ------------------------------------------------------------ the parser

  /**
   * The matrix update_entire_matrix_from_trajectory_result reads out of a
   * text: "{{" and "}}" erased, rows split on "},{", numbers on ",", each
   * trimmed and read with toInt.
   */
  function Parsed(t: string): seq<seq<int>>
  {
    ParseNested(t, '{', '}')
  }

  /** A parsed matrix that stays within the 20 x 20 local it is copied into. */
  predicate FitsGrid(m: seq<seq<int>>)
  {
    |m| <= Rows && forall i :: 0 <= i < |m| ==> |m[i]| <= Cols
  }

  predicate IsGrid(m: seq<seq<int>>)
  {
    |m| == Rows && forall i :: 0 <= i < Rows ==> |m[i]| == Cols
  }

  /** The value cell (i, j) receives: the parsed number if there is one, else what the local held. */
  function CellOf(m: seq<seq<int>>, garbage: seq<seq<int>>, i: int, j: int): int
    requires IsGrid(garbage) && 0 <= i < Rows && 0 <= j < Cols
  {
    if i < |m| && j < |m[i]| then m[i][j] else garbage[i][j]
  }

  // --------------------------------------------------- formatter round trip

  /**
   * The console reads back exactly the matrix the planner printed: parsing
   * formated_matrice's text gives the matrix, for any non-empty matrix of
   * non-empty rows of int-sized numbers.
   */
  lemma FormattedMatrixParses(m: seq<seq<int>>)
    requires Writable(m)
    ensures Parsed(Trajectory.FormattedMatrix(m)) == m
  {
    NestedRoundTrip(m, '{', '}');
  }

  /** Loading the planner's text of a 20 x 20 matrix fits the local and puts every cell back, whatever the local held. */
  lemma FormattedMatrixLoads(m: seq<seq<int>>, garbage: seq<seq<int>>)
    requires Writable(m) && IsGrid(m) && IsGrid(garbage)
    ensures FitsGrid(Parsed(Trajectory.FormattedMatrix(m)))
    ensures forall i, j :: 0 <= i < Rows && 0 <= j < Cols ==> CellOf(Parsed(Trajectory.FormattedMatrix(m)), garbage, i, j) == m[i][j]
  {
    FormattedMatrixParses(m);
  }

  // ------------------------------------------------------------ the object

  class Map {
    const matrix: array2<int>
    var destX: int
    var destY: int
    var robotX: int
    var robotY: int
    var clickable: bool

    predicate Valid()
      reads this
    {
      matrix.Length0 == Rows && matrix.Length1 == Cols
    }

    /** Map(): every cell non-cartographied, no robot, no destination, clicks off. */
    constructor ()
      ensures Valid() && fresh(matrix)
      ensures forall i, j :: 0 <= i < Rows && 0 <= j < Cols ==> matrix[i, j] == NonCartographied
      ensures destX == -1 && destY == -1 && robotX == -1 && robotY == -1 && !clickable
    {
      matrix := new int[Rows, Cols];
      destX, destY, robotX, robotY := -1, -1, -1, -1;
      clickable := false;
      new;
      InitMap();
    }

    /** init_map. */
    method InitMap()
      requires Valid()
      modifies matrix
      ensures forall i, j :: 0 <= i < Rows && 0 <= j < Cols ==> matrix[i, j] == NonCartographied
    {
      var i := 0;
      while i < Rows
        invariant 0 <= i <= Rows
        invariant forall r, c :: 0 <= r < i && 0 <= c < Cols ==> matrix[r, c] == NonCartographied
      {
        var j := 0;
        while j < Cols
          invariant 0 <= j <= Cols
          invariant forall r, c :: 0 <= r < i && 0 <= c < Cols ==> matrix[r, c] == NonCartographied
          invariant forall c :: 0 <= c < j ==> matrix[i, c] == NonCartographied
        {
          matrix[i, j] := NonCartographied;
          j := j + 1;
        }
        i := i + 1;
      }
    }

    /** update_matrix_element: cell [y][x] takes `v` when in range; nothing changes otherwise. */
    method UpdateMatrixElement(y: int, x: int, v: int)
      requires Valid()
      modifies matrix
      ensures forall i, j :: 0 <= i < Rows && 0 <= j < Cols ==>
        matrix[i, j] == if InRange(y, x) && i == y && j == x then v else old(matrix[i, j])
    {
      if x >= 0 && x < Cols && y >= 0 && y < Rows {
        matrix[y, x] := v;
      }
    }

    /** set_obstacle. */
    method SetObstacle(y: int, x: int)
      requires Valid()
      modifies matrix
      ensures forall i, j :: 0 <= i < Rows && 0 <= j < Cols ==>
        matrix[i, j] == if InRange(y, x) && i == y && j == x then ObstacleCell else old(matrix[i, j])
    {
      UpdateMatrixElement(y, x, ObstacleCell);
    }

    /** set_cartographied_area. */
    method SetCartographiedArea(y: int, x: int)
      requires Valid()
      modifies matrix
      ensures forall i, j :: 0 <= i < Rows && 0 <= j < Cols ==>
        matrix[i, j] == if InRange(y, x) && i == y && j == x then Cartographied else old(matrix[i, j])
    {
      UpdateMatrixElement(y, x, Cartographied);
    }

    /** set_non_cartographied_area. */
    method SetNonCartographiedArea(y: int, x: int)
      requires Valid()
      modifies matrix
      ensures forall i, j :: 0 <= i < Rows && 0 <= j < Cols ==>
        matrix[i, j] == if InRange(y, x) && i == y && j == x then NonCartographied else old(matrix[i, j])
    {
      UpdateMatrixElement(y, x, NonCartographied);
    }

    /** update_entire_matrix: the whole matrix copied from `source` (which may be the map's own). */
    method UpdateEntireMatrix(source: array2<int>)
      requires Valid() && source.Length0 == Rows && source.Length1 == Cols
      modifies matrix
      ensures forall i, j :: 0 <= i < Rows && 0 <= j < Cols ==> matrix[i, j] == old(source[i, j])
    {
      forall i, j | 0 <= i < Rows && 0 <= j < Cols {
        matrix[i, j] := source[i, j];
      }
    }

    /**
     * update_entire_matrix_from_trajectory_result: the text is parsed into
     * a local 20 x 20 matrix, whose cells the text does not reach keep
     * whatever the local held (`garbage`), and the local is copied into
     * the map. More than 20 rows or numbers would write outside the local.
     */
    method UpdateFromTrajectoryResult(t: string, garbage: seq<seq<int>>)
      requires Valid() && IsGrid(garbage) && FitsGrid(Parsed(t))
      modifies matrix
      ensures forall i, j :: 0 <= i < Rows && 0 <= j < Cols ==> matrix[i, j] == CellOf(Parsed(t), garbage, i, j)
    {
      var rows := SplitSkip(Erase(Erase(t, "{{"), "}}"), "},{");
      assert rows == NestedRows(t, '{', '}');
      var converted := new int[Rows, Cols]((i, j) requires 0 <= i < Rows && 0 <= j < Cols => garbage[i][j]);
      ghost var m := Parsed(t);
      var i := 0;
      while i < |rows|
        invariant 0 <= i <= |rows| && rows == NestedRows(t, '{', '}')
        invariant forall r, c :: 0 <= r < Rows && 0 <= c < Cols ==>
          converted[r, c] == if r < i then CellOf(m, garbage, r, c) else garbage[r][c]
      {
        ConvertRow(converted, i, rows[i], m, garbage);
        i := i + 1;
      }
      forall r, c | 0 <= r < Rows && 0 <= c < Cols {
        matrix[r, c] := converted[r, c];
      }
    }

    /** The inner loop of update_entire_matrix_from_trajectory_result: the numbers of row `i` are read into `converted`. */
    method ConvertRow(converted: array2<int>, i: int, row: string, ghost m: seq<seq<int>>, ghost garbage: seq<seq<int>>)
      requires converted.Length0 == Rows && converted.Length1 == Cols && IsGrid(garbage)
      requires FitsGrid(m) && 0 <= i < |m| && m[i] == RowValues(row)
      requires forall r, c :: 0 <= r < Rows && 0 <= c < Cols ==>
        converted[r, c] == if r < i then CellOf(m, garbage, r, c) else garbage[r][c]
      modifies converted
      ensures forall r, c :: 0 <= r < Rows && 0 <= c < Cols ==>
        converted[r, c] == if r <= i then CellOf(m, garbage, r, c) else garbage[r][c]
    {
      var nums := SplitSkip(row, ",");
      var j := 0;
      while j < |nums|
        invariant 0 <= j <= |nums| && nums == Numbers(row) && |nums| <= Cols
        invariant forall r, c :: 0 <= r < Rows && 0 <= c < Cols ==>
          converted[r, c] == if r < i || (r == i && c < j) then CellOf(m, garbage, r, c) else garbage[r][c]
      {
        converted[i, j] := ToInt(Trimmed(nums[j]));
        j := j + 1;
      }
    }

    /** enable_map_click. */
    method EnableMapClick(on: bool)
      modifies this
      ensures clickable == on
      ensures destX == old(destX) && destY == old(destY) && robotX == old(robotX) && robotY == old(robotY)
    {
      clickable := on;
    }

    /** Every cell holding `from` is turned into `to`; the rest is unchanged. */
    method Relabel(from: int, to: int)
      requires Valid()
      modifies matrix
      ensures forall i, j :: 0 <= i < Rows && 0 <= j < Cols ==>
        matrix[i, j] == if old(matrix[i, j]) == from then to else old(matrix[i, j])
    {
      var i := 0;
      while i < Rows
        invariant 0 <= i <= Rows
        invariant forall r, c :: 0 <= r < Rows && 0 <= c < Cols ==>
          matrix[r, c] == if r < i && old(matrix[r, c]) == from then to else old(matrix[r, c])
      {
        var j := 0;
        while j < Cols
          invariant 0 <= j <= Cols
          invariant forall r, c :: 0 <= r < Rows && 0 <= c < Cols ==>
            matrix[r, c] == if (r < i || (r == i && c < j)) && old(matrix[r, c]) == from then to else old(matrix[r, c])
        {
          if matrix[i, j] == from {
            matrix[i, j] := to;
          }
          j := j + 1;
        }
        i := i + 1;
      }
    }

    /**
     * Every cell marked 1 in `mask` and holding `from` is turned into `to`
     * (the loops of set_waypoints and reset_trajectory_with_parameter).
     */
    method MarkWhere(mask: array2<int>, from: int, to: int)
      requires Valid() && mask.Length0 == Rows && mask.Length1 == Cols
      modifies matrix
      ensures forall i, j :: 0 <= i < Rows && 0 <= j < Cols ==>
        matrix[i, j] == if old(mask[i, j]) == 1 && old(matrix[i, j]) == from then to else old(matrix[i, j])
    {
      var i := 0;
      while i < Rows
        invariant 0 <= i <= Rows
        invariant forall r, c :: 0 <= r < Rows && 0 <= c < Cols ==>
          matrix[r, c] == if r < i && old(mask[r, c]) == 1 && old(matrix[r, c]) == from then to else old(matrix[r, c])
        invariant forall r, c :: i <= r < Rows && 0 <= c < Cols ==> mask[r, c] == old(mask[r, c])
      {
        var j := 0;
        while j < Cols
          invariant 0 <= j <= Cols
          invariant forall r, c :: 0 <= r < Rows && 0 <= c < Cols ==>
            matrix[r, c] == if (r < i || (r == i && c < j)) && old(mask[r, c]) == 1 && old(matrix[r, c]) == from then to else old(matrix[r, c])
          invariant forall r, c :: 0 <= r < Rows && 0 <= c < Cols && (r > i || (r == i && c >= j)) ==> mask[r, c] == old(mask[r, c])
        {
          if mask[i, j] == 1 && matrix[i, j] == from {
            matrix[i, j] := to;
          }
          j := j + 1;
        }
        i := i + 1;
      }
    }

    /**
     * set_robot_position: in range, the old robot cells become
     * cartographied and [y][x] becomes the only robot cell; out of range,
     * nothing changes.
     */
    method SetRobotPosition(y: int, x: int)
      requires Valid()
      modifies this, matrix
      ensures InRange(y, x) ==> robotX == x && robotY == y
      ensures InRange(y, x) ==> forall i, j :: 0 <= i < Rows && 0 <= j < Cols ==>
        matrix[i, j] == if i == y && j == x then RobotCell else if old(matrix[i, j]) == RobotCell then Cartographied else old(matrix[i, j])
      ensures InRange(y, x) ==> forall i, j :: 0 <= i < Rows && 0 <= j < Cols ==> (matrix[i, j] == RobotCell <==> i == y && j == x)
      ensures !InRange(y, x) ==> robotX == old(robotX) && robotY == old(robotY) && unchanged(matrix)
      ensures destX == old(destX) && destY == old(destY) && clickable == old(clickable)
    {
      if x >= 0 && x < Cols && y >= 0 && y < Rows {
        Relabel(RobotCell, Cartographied);
        robotX := x;
        robotY := y;
        matrix[y, x] := RobotCell;
      }
    }

    /**
     * set_destination: the old destination cells become cartographied and
     * [y][x] becomes the only destination cell. There is no bounds check, so
     * the cell must be in range.
     */
    method SetDestination(y: int, x: int)
      requires Valid() && InRange(y, x)
      modifies this, matrix
      ensures destX == x && destY == y
      ensures forall i, j :: 0 <= i < Rows && 0 <= j < Cols ==>
        matrix[i, j] == if i == y && j == x then DestinationCell else if old(matrix[i, j]) == DestinationCell then Cartographied else old(matrix[i, j])
      ensures forall i, j :: 0 <= i < Rows && 0 <= j < Cols ==> (matrix[i, j] == DestinationCell <==> i == y && j == x)
      ensures robotX == old(robotX) && robotY == old(robotY) && clickable == old(clickable)
    {
      Relabel(DestinationCell, Cartographied);
      destX := x;
      destY := y;
      matrix[y, x] := DestinationCell;
    }

    /**
     * set_destination_and_robot_position, called with the clicked row `x`
     * and column `y`. Ignored while clicks are off; a cell other than
     * cartographied raises popup 4; otherwise the first click places the
     * robot, the next one the destination, which also turns clicks off.
     */
    method SetDestinationAndRobotPosition(x: int, y: int) returns (popup: Option<int>)
      requires Valid() && (clickable ==> InRange(x, y))
      modifies this, matrix
      ensures !old(clickable) ==> popup == None && unchanged(this) && unchanged(matrix)
      ensures old(clickable) && old(matrix[x, y]) != Cartographied ==> popup == Some(UnreachablePopup) && unchanged(this) && unchanged(matrix)
      ensures old(clickable) && old(matrix[x, y]) == Cartographied ==> popup == None
      ensures old(clickable) && old(matrix[x, y]) == Cartographied && old(robotX) == -1 && old(robotY) == -1 ==>
        && robotX == y && robotY == x && clickable
        && destX == old(destX) && destY == old(destY)
        && forall i, j :: 0 <= i < Rows && 0 <= j < Cols ==>
             matrix[i, j] == if i == x && j == y then RobotCell else if old(matrix[i, j]) == RobotCell then Cartographied else old(matrix[i, j])
      ensures old(clickable) && old(matrix[x, y]) == Cartographied && !(old(robotX) == -1 && old(robotY) == -1) && old(destX) == -1 && old(destY) == -1 ==>
        && destX == y && destY == x && !clickable
        && robotX == old(robotX) && robotY == old(robotY)
        && forall i, j :: 0 <= i < Rows && 0 <= j < Cols ==>
             matrix[i, j] == if i == x && j == y then DestinationCell else if old(matrix[i, j]) == DestinationCell then Cartographied else old(matrix[i, j])
      ensures old(clickable) && old(matrix[x, y]) == Cartographied && !(old(robotX) == -1 && old(robotY) == -1) && !(old(destX) == -1 && old(destY) == -1) ==>
        unchanged(this) && unchanged(matrix)
    {
      popup := None;
      if clickable {
        if matrix[x, y] == 1 {
          if robotX == -1 && robotY == -1 {
            SetRobotPosition(x, y);
          } else if destX == -1 && destY == -1 {
            EnableMapClick(false);
            SetDestination(x, y);
          }
        } else {
          popup := Some(UnreachablePopup);
        }
      }
    }

    /** set_waypoints: only cells cartographied in the map and 1 in the mask become waypoints. */
    method SetWaypoints(mask: array2<int>)
      requires Valid() && mask.Length0 == Rows && mask.Length1 == Cols
      modifies matrix
      ensures forall i, j :: 0 <= i < Rows && 0 <= j < Cols ==>
        matrix[i, j] == if old(mask[i, j]) == 1 && old(matrix[i, j]) == Cartographied then WaypointCell else old(matrix[i, j])
    {
      MarkWhere(mask, Cartographied, WaypointCell);
    }

    /** set_waypoint: called with the row as `y`; no bounds check, so the cell must be in range. */
    method SetWaypoint(y: int, x: int)
      requires Valid() && InRange(x, y)
      modifies matrix
      ensures forall i, j :: 0 <= i < Rows && 0 <= j < Cols ==>
        matrix[i, j] == if i == x && j == y && old(matrix[i, j]) == Cartographied then WaypointCell else old(matrix[i, j])
    {
      if matrix[x, y] == Cartographied {
        matrix[x, y] := WaypointCell;
      }
    }

    /** reset_trajectory_with_parameter: the masked waypoints and every destination cell become cartographied. */
    method ResetTrajectoryWithParameter(mask: array2<int>)
      requires Valid() && mask.Length0 == Rows && mask.Length1 == Cols
      modifies this, matrix
      ensures forall i, j :: 0 <= i < Rows && 0 <= j < Cols ==>
        matrix[i, j] == if (old(mask[i, j]) == 1 && old(matrix[i, j]) == WaypointCell) || old(matrix[i, j]) == DestinationCell then Cartographied else old(matrix[i, j])
      ensures forall i, j :: 0 <= i < Rows && 0 <= j < Cols ==> matrix[i, j] != DestinationCell
      ensures destX == -1 && destY == -1
      ensures robotX == old(robotX) && robotY == old(robotY) && clickable == old(clickable)
    {
      MarkWhere(mask, WaypointCell, Cartographied);
      Relabel(DestinationCell, Cartographied);
      destX := -1;
      destY := -1;
    }

    /**
     * reset_trajectory: every waypoint, robot and destination cell becomes
     * cartographied, other cells are kept, and both positions are unset.
     */
    method ResetTrajectory()
      requires Valid()
      modifies this, matrix
      ensures forall i, j :: 0 <= i < Rows && 0 <= j < Cols ==>
        matrix[i, j] == if old(matrix[i, j]) in {WaypointCell, RobotCell, DestinationCell} then Cartographied else old(matrix[i, j])
      ensures forall i, j :: 0 <= i < Rows && 0 <= j < Cols ==> matrix[i, j] !in {WaypointCell, RobotCell, DestinationCell}
      ensures robotX == -1 && robotY == -1 && destX == -1 && destY == -1 && clickable == old(clickable)
    {
      Relabel(WaypointCell, Cartographied);
      Relabel(RobotCell, Cartographied);
      Relabel(DestinationCell, Cartographied);
      robotX := -1;
      robotY := -1;
      destX := -1;
      destY := -1;
    }

    /** reset_map: the initial map again, keeping the click flag. */
    method ResetMap()
      requires Valid()
      modifies this, matrix
      ensures forall i, j :: 0 <= i < Rows && 0 <= j < Cols ==> matrix[i, j] == NonCartographied
      ensures robotX == -1 && robotY == -1 && destX == -1 && destY == -1 && clickable == old(clickable)
    {
      InitMap();
      destX := -1;
      destY := -1;
      robotX := -1;
      robotY := -1;
    }
  }

}
