/*
 * The planner's command generator (Exe/generate_commands.py): a path of
 * grid cells, preceded by the robot's cell, becomes FRONT/RIGHT/LEFT
 * commands for a robot that starts facing EST.
 *
 * Headings are the robot's own `Direction`s: the script's codes EST=5,
 * NORD=6, OUEST=7, SUD=8 never leave the script, and its clockwise table
 * is the robot's RIGHT table (CartoPilot.RightOf), its second column the
 * LEFT table. A step of +1 in the row is SUD and +1 in the column EST, as
 * on the robot.
 *
 * `Drive` is what the commands mean to the robot: FORWARD moves one cell
 * along the heading, RIGHT and LEFT turn on the spot. The script as written
 * (`GenerateAsWritten`, run by `GenerateScript`) does not always drive the
 * robot along its path; `Generate` is the corrected generator, which does.
 */
module GenerateCommands {
  import opened Protocol
  import Pilot = CartoPilot

  type Cell = (int, int)

  // ------------------------------------------------------------ headings

  /** determine_direction: the heading of a unit step; no heading for any other step. */
  function DirectionOf(dx: int, dy: int): (d: Option<Direction>)
    ensures d.Some? <==> dx == 1 || dx == -1 || dy == 1 || dy == -1
  {
    if dx == 1 then Some(South)
    else if dx == -1 then Some(North)
    else if dy == 1 then Some(East)
    else if dy == -1 then Some(West)
    else None
  }

  /** The step from p to q moves to a 4-adjacent cell. */
  predicate UnitStep(p: Cell, q: Cell)
  {
    var dx, dy := q.0 - p.0, q.1 - p.1;
    (dx == 0 && (dy == 1 || dy == -1)) || (dy == 0 && (dx == 1 || dx == -1))
  }

  /** determine_direction names exactly the heading whose offset is the step, for every unit step. */
  lemma DirectionOfUnitStep(p: Cell, q: Cell)
    requires UnitStep(p, q)
    ensures DirectionOf(q.0 - p.0, q.1 - p.1).Some?
    ensures Pilot.Offset(DirectionOf(q.0 - p.0, q.1 - p.1).value) == (q.0 - p.0, q.1 - p.1)
  {
  }

  /** Every heading's offset is named back by determine_direction. */
  lemma DirectionOfOffset(d: Direction)
    ensures DirectionOf(Pilot.Offset(d).0, Pilot.Offset(d).1) == Some(d)
  {
  }

  /**
   * The script's clockwise table visits the four headings in a cycle of
   * length four, and its anticlockwise column undoes it.
   */
  lemma TurnTableIsCycle(d: Direction)
    ensures Pilot.RightOf(d) != d && Pilot.RightOf(Pilot.RightOf(d)) != d
    ensures Pilot.RightOf(Pilot.RightOf(Pilot.RightOf(d))) != d
    ensures Pilot.RightOf(Pilot.RightOf(Pilot.RightOf(Pilot.RightOf(d)))) == d
    ensures Pilot.LeftOf(Pilot.RightOf(d)) == d && Pilot.RightOf(Pilot.LeftOf(d)) == d
  {
  }

  // ------------------------------------------------------------ the robot

  /** A heading after turn commands: RIGHT and LEFT turn, the others leave it. */
  function Facing(h: Direction, cmds: seq<Command>): Direction
    decreases |cmds|
  {
    if |cmds| == 0 then h
    else
      var d := Facing(h, cmds[..|cmds| - 1]);
      match cmds[|cmds| - 1]
      case Right => Pilot.RightOf(d)
      case Left => Pilot.LeftOf(d)
      case _ => d
  }

  /** Where the robot stands and faces after some commands, and the cell each FORWARD brought it to. */
  datatype Pose = Pose(at: Cell, facing: Direction, visited: seq<Cell>)

  /** The motion commands denote: FORWARD moves one cell ahead, RIGHT and LEFT turn on the spot, STOP stays. */
  function Drive(at: Cell, h: Direction, cmds: seq<Command>): (p: Pose)
    ensures p.facing == Facing(h, cmds)
    decreases |cmds|
  {
    if |cmds| == 0 then Pose(at, h, [])
    else DriveOne(Drive(at, h, cmds[..|cmds| - 1]), cmds[|cmds| - 1])
  }

  /** One command from a pose. */
  function DriveOne(p: Pose, c: Command): Pose
  {
    match c
    case Forward =>
      var o := Pilot.Offset(p.facing);
      var next := (p.at.0 + o.0, p.at.1 + o.1);
      Pose(next, p.facing, p.visited + [next])
    case Right => p.(facing := Pilot.RightOf(p.facing))
    case Left => p.(facing := Pilot.LeftOf(p.facing))
    case Stop => p
  }

  /** One command adds its cell, if any, after whatever was visited before. */
  lemma DriveOneAfter(before: seq<Cell>, p: Pose, c: Command)
    ensures var q := DriveOne(p, c);
      DriveOne(p.(visited := before + p.visited), c) == q.(visited := before + q.visited)
  {
    if c == Forward {
      var q := DriveOne(p, c);
      assert before + p.visited + [q.at] == before + (p.visited + [q.at]);
    }
  }

  /** Driving a concatenation drives the first part, then the second from where the first ended. */
  lemma {:induction false} DriveAppend(at: Cell, h: Direction, a: seq<Command>, b: seq<Command>)
    ensures var p := Drive(at, h, a); var q := Drive(p.at, p.facing, b);
      Drive(at, h, a + b) == Pose(q.at, q.facing, p.visited + q.visited)
    decreases |b|
  {
    if |b| > 0 {
      var n := |b| - 1;
      assert (a + b)[..|a + b| - 1] == a + b[..n] && (a + b)[|a + b| - 1] == b[n];
      DriveAppend(at, h, a, b[..n]);
      var p := Drive(at, h, a);
      var q := Drive(p.at, p.facing, b[..n]);
      assert Drive(at, h, a + b) == DriveOne(q.(visited := p.visited + q.visited), b[n]);
      assert Drive(p.at, p.facing, b) == DriveOne(q, b[n]);
      DriveOneAfter(p.visited, q, b[n]);
    } else {
      assert a + b == a;
    }
  }

  // ------------------------------------------------------------ turns

  /**
   * get_turn_commands as written: the needed heading if it is the current
   * one or its clockwise neighbour, and otherwise one LEFT, which faces the
   * anticlockwise neighbour even when the needed heading is the reverse.
   */
  function TurnAsWritten(h: Direction, needed: Option<Direction>): (r: (seq<Command>, Direction))
    ensures |r.0| <= 1 && r.1 == Facing(h, r.0)
    ensures needed == Some(h) <==> r.0 == []
  {
    if needed == Some(h) then ([], h)
    else if needed == Some(Pilot.RightOf(h)) then ([Right], Pilot.RightOf(h))
    else ([Left], Pilot.LeftOf(h))
  }

  /** A reversal leaves the script facing away from the step it is about to take. */
  lemma ReversalFacesAside(h: Direction)
    ensures var r := TurnAsWritten(h, Some(Pilot.LeftOf(Pilot.LeftOf(h))));
      r == ([Left], Pilot.LeftOf(h)) && r.1 != Pilot.LeftOf(Pilot.LeftOf(h))
  {
  }

  /**
   * get_turn_commands corrected: a reversal turns twice to the right.
   * A step with no heading is turned as the script does.
   */
  function Turn(h: Direction, needed: Option<Direction>): (r: (seq<Command>, Direction))
    ensures r.1 == Facing(h, r.0)
    ensures needed.Some? ==> r.1 == needed.value
    ensures needed == Some(h) <==> r.0 == []
    ensures |r.0| <= 2 && forall i :: 0 <= i < |r.0| ==> r.0[i] != Forward && r.0[i] != Stop
  {
    match needed
    case None => ([Left], Pilot.LeftOf(h))
    case Some(d) =>
      if d == h then ([], h)
      else if d == Pilot.RightOf(h) then ([Right], d)
      else if d == Pilot.LeftOf(h) then ([Left], d)
      else ([Right, Right], d)
  }

  /** Both tables agree on everything but a reversal. */
  lemma TurnsAgree(h: Direction, needed: Option<Direction>)
    requires needed != Some(Pilot.LeftOf(Pilot.LeftOf(h)))
    ensures TurnAsWritten(h, needed) == Turn(h, needed)
  {
  }

  /** The turn before a step: the corrected table when `fixed` holds, the script's otherwise. */
  function StepTurn(h: Direction, needed: Option<Direction>, fixed: bool): (r: (seq<Command>, Direction))
    ensures r.1 == Facing(h, r.0) && |r.0| <= (if fixed then 2 else 1)
    ensures forall i :: 0 <= i < |r.0| ==> r.0[i] != Forward && r.0[i] != Stop
  {
    if fixed then Turn(h, needed) else TurnAsWritten(h, needed)
  }

  // ------------------------------------------------------------ generation

  /**
   * The commands for a list of points, the first being the robot's, and the
   * final heading: the loop of generate_commands, with the corrected turn
   * table when `fixed` holds and the script's otherwise.
   */
  function Walk(points: seq<Cell>, fixed: bool): (r: (seq<Command>, Direction))
    requires |points| > 0
    decreases |points|
  {
    if |points| == 1 then ([], East)
    else
      var w := Walk(points[..|points| - 1], fixed);
      var p, q := points[|points| - 2], points[|points| - 1];
      var needed := DirectionOf(q.0 - p.0, q.1 - p.1);
      var t := StepTurn(w.1, needed, fixed);
      (w.0 + t.0 + [Forward], t.1)
  }

  function Forwards(cmds: seq<Command>): nat
  {
    if |cmds| == 0 then 0 else Forwards(cmds[..|cmds| - 1]) + if cmds[|cmds| - 1] == Forward then 1 else 0
  }

  lemma {:induction false} ForwardsAppend(a: seq<Command>, b: seq<Command>)
    ensures Forwards(a + b) == Forwards(a) + Forwards(b)
    decreases |b|
  {
    if |b| > 0 {
      assert (a + b)[..|a + b| - 1] == a + b[..|b| - 1];
      ForwardsAppend(a, b[..|b| - 1]);
    } else {
      assert a + b == a;
    }
  }

  /**
   * Each step adds one FRONT after at most one turn (two, for a corrected
   * reversal): n steps give exactly n FRONTs, between n and 2n commands
   * (3n corrected), the last one FRONT.
   */
  lemma {:induction false} WalkShape(points: seq<Cell>, fixed: bool)
    requires |points| > 0
    ensures var cmds := Walk(points, fixed).0; var n := |points| - 1;
      && Forwards(cmds) == n
      && n <= |cmds| <= (if fixed then 3 * n else 2 * n)
      && (n > 0 ==> cmds[|cmds| - 1] == Forward)
    decreases |points|
  {
    if |points| > 1 {
      var init := points[..|points| - 1];
      WalkShape(init, fixed);
      var w := Walk(init, fixed);
      var p, q := points[|points| - 2], points[|points| - 1];
      var t := StepTurn(w.1, DirectionOf(q.0 - p.0, q.1 - p.1), fixed);
      assert Walk(points, fixed).0 == w.0 + t.0 + [Forward];
      StepShape(w.0, t.0);
    }
  }

  /** A turn of no FORWARD, then one FORWARD: one more FORWARD, and the last command. */
  lemma StepShape(cmds: seq<Command>, turn: seq<Command>)
    requires |turn| <= 2 && forall i :: 0 <= i < |turn| ==> turn[i] != Forward
    ensures var c := cmds + turn + [Forward];
      Forwards(c) == Forwards(cmds) + 1 && |c| == |cmds| + |turn| + 1 && c[|c| - 1] == Forward
  {
    assert cmds + turn + [Forward] == cmds + (turn + [Forward]);
    ForwardsAppend(cmds, turn + [Forward]);
    ForwardsAppend(turn, [Forward]);
    assert Forwards(turn) == 0 by {
      if |turn| == 2 {
        assert turn[..1] == [turn[0]] && turn[..1][..0] == [];
      } else if |turn| == 1 {
        assert turn[..0] == [];
      }
    }
    assert [Forward][..0] == [];
  }

  /**
   * generate_commands as written: nothing for a path of fewer than two
   * cells, and otherwise one FRONT per cell of the path, each after at most
   * one turn.
   */
  function GenerateAsWritten(path: seq<Cell>, robot: Cell): (r: seq<Command>)
    ensures |path| < 2 ==> r == []
    ensures |path| >= 2 ==> Forwards(r) == |path| && |path| <= |r| <= 2 * |path| && r[|r| - 1] == Forward
  {
    if |path| < 2 then []
    else
      WalkShape([robot] + path, false);
      Walk([robot] + path, false).0
  }

  /** A destination next to the robot: the script gives no command at all. */
  lemma OneStepPathIsDropped()
    ensures GenerateAsWritten([(0, 1)], (0, 0)) == []
    ensures Drive((0, 0), East, GenerateAsWritten([(0, 1)], (0, 0))).at != (0, 1)
  {
  }

  /**
   * A path whose first step is to the west (OUEST): the script turns LEFT,
   * faces north and drives there, so the robot ends two cells away from the
   * destination.
   */
  lemma WestFirstGoesAstray()
    ensures GenerateAsWritten([(5, 4), (5, 3)], (5, 5)) == [Left, Forward, Left, Forward]
    ensures Drive((5, 5), East, GenerateAsWritten([(5, 4), (5, 3)], (5, 5))).at == (4, 4)
  {
    WestFirstWalk();
    assert [(5, 5), (5, 4)] + [(5, 3)] == [(5, 5)] + [(5, 4), (5, 3)];
    TurnThenForward((5, 5), East, [Left]);
    DriveAppend((5, 5), East, [Left, Forward], [Left, Forward]);
    TurnThenForward((4, 5), North, [Left]);
    assert [Left, Forward] + [Left, Forward] == [Left, Forward, Left, Forward];
  }

  lemma WestFirstWalk()
    ensures Walk([(5, 5), (5, 4)] + [(5, 3)], false).0 == [Left, Forward, Left, Forward]
  {
    WalkStep([(5, 5)], (5, 5), (5, 4), false, [], East);
    assert [(5, 5)] + [(5, 4)] == [(5, 5), (5, 4)];
    WalkStep([(5, 5), (5, 4)], (5, 4), (5, 3), false, [Left, Forward], North);
  }

  /** Consecutive points are 4-adjacent. */
  predicate IsWalk(points: seq<Cell>)
  {
    forall i :: 0 <= i < |points| - 1 ==> UnitStep(points[i], points[i + 1])
  }

  /**
   * The corrected commands drive the robot, from its cell facing EST,
   * through every point of a walk in order: each FORWARD reaches the next
   * point and the robot ends on the last one, facing the last step.
   */
  lemma {:induction false} WalkDrives(points: seq<Cell>)
    requires |points| > 0 && IsWalk(points)
    ensures var d := Drive(points[0], East, Walk(points, true).0);
      d.at == points[|points| - 1] && d.visited == points[1..] && d.facing == Walk(points, true).1
    decreases |points|
  {
    if |points| > 1 {
      var init := points[..|points| - 1];
      var p, q := points[|points| - 2], points[|points| - 1];
      assert IsWalk(init) by {
        forall i | 0 <= i < |init| - 1
          ensures UnitStep(init[i], init[i + 1])
        {
          assert init[i] == points[i] && init[i + 1] == points[i + 1];
        }
      }
      WalkDrives(init);
      assert init[0] == points[0] && init[|init| - 1] == p;
      var w := Walk(init, true);
      assert UnitStep(p, q);
      StepDrives(points[0], w.0, w.1, p, q, init[1..]);
      assert Walk(points, true) == (w.0 + Turn(w.1, DirectionOf(q.0 - p.0, q.1 - p.1)).0 + [Forward], Turn(w.1, DirectionOf(q.0 - p.0, q.1 - p.1)).1);
      assert init[1..] + [q] == points[1..];
    }
  }

  /** Driving one more step of a walk: from the cell reached, the turn and a FORWARD reach the next cell. */
  lemma StepDrives(start: Cell, cmds: seq<Command>, h: Direction, p: Cell, q: Cell, visited: seq<Cell>)
    requires Drive(start, East, cmds) == Pose(p, h, visited) && UnitStep(p, q)
    ensures var t := Turn(h, DirectionOf(q.0 - p.0, q.1 - p.1));
      Drive(start, East, cmds + t.0 + [Forward]) == Pose(q, t.1, visited + [q])
  {
    DirectionOfUnitStep(p, q);
    var t := Turn(h, DirectionOf(q.0 - p.0, q.1 - p.1));
    var step := t.0 + [Forward];
    TurnThenForward(p, h, t.0);
    assert Drive(p, h, step) == Pose(q, t.1, [q]);
    DriveAppend(start, East, cmds, step);
    assert Drive(start, East, cmds + step) == Pose(q, t.1, visited + [q]);
    assert cmds + t.0 + [Forward] == cmds + (t.0 + [Forward]);
  }

  /** The last step of a walk: its turn, then one FORWARD. */
  lemma WalkSnoc(init: seq<Cell>, q: Cell, fixed: bool)
    requires |init| > 0
    ensures var w := Walk(init, fixed); var p := init[|init| - 1];
      var needed := DirectionOf(q.0 - p.0, q.1 - p.1);
      var t := StepTurn(w.1, needed, fixed);
      Walk(init + [q], fixed) == (w.0 + t.0 + [Forward], t.1)
  {
    assert (init + [q])[..|init|] == init;
  }

  /** Turn commands leave the robot where it is and record no cell. */
  lemma {:induction false} TurnsStay(at: Cell, h: Direction, turns: seq<Command>)
    requires forall i :: 0 <= i < |turns| ==> turns[i] != Forward
    ensures Drive(at, h, turns).at == at && Drive(at, h, turns).visited == []
    decreases |turns|
  {
    if |turns| > 0 {
      TurnsStay(at, h, turns[..|turns| - 1]);
    }
  }

  /** Turning on the spot and then one FORWARD moves one cell along the new heading. */
  lemma TurnThenForward(at: Cell, h: Direction, turns: seq<Command>)
    requires forall i :: 0 <= i < |turns| ==> turns[i] != Forward
    ensures var f := Facing(h, turns); var next := (at.0 + Pilot.Offset(f).0, at.1 + Pilot.Offset(f).1);
      Drive(at, h, turns + [Forward]) == Pose(next, f, [next])
  {
    assert (turns + [Forward])[..|turns|] == turns;
    TurnsStay(at, h, turns);
  }

  /**
   * The script agrees with the corrected generator on every walk of at
   * least two cells whose first step is not to the west and which never
   * steps straight back: only then is no step a reversal.
   */
  lemma {:induction false} AsWrittenAgrees(points: seq<Cell>)
    requires |points| > 0 && IsWalk(points)
    requires |points| > 1 ==> points[1] != (points[0].0, points[0].1 - 1)
    requires forall i :: 0 <= i < |points| - 2 ==> points[i + 2] != points[i]
    ensures Walk(points, false) == Walk(points, true)
    ensures |points| > 1 ==> Pilot.Offset(Walk(points, true).1) == (points[|points| - 1].0 - points[|points| - 2].0, points[|points| - 1].1 - points[|points| - 2].1)
    decreases |points|
  {
    if |points| > 1 {
      var init := points[..|points| - 1];
      AsWrittenAgrees(init);
      var w := Walk(init, true);
      var p, q := points[|points| - 2], points[|points| - 1];
      DirectionOfUnitStep(p, q);
      var needed := DirectionOf(q.0 - p.0, q.1 - p.1);
      var d := needed.value;
      Pilot.TurnsAreQuarterTurns(w.1);
      if |points| == 2 {
        assert w.1 == East;
      } else {
        assert points[|points| - 3] == init[|init| - 2];
      }
      assert d != Pilot.LeftOf(Pilot.LeftOf(w.1));
      TurnsAgree(w.1, needed);
    }
  }

  /**
   * generate_commands with the corrected guard and turn table. The robot's
   * cell is put in front of the path, as the script does to the caller's
   * list; each step adds its turn and one FORWARD.
   */
  method Generate(path: seq<Cell>, robot: Cell) returns (commands: seq<Command>)
    ensures commands == Walk([robot] + path, true).0
  {
    commands := [];
    var heading := East;
    if |path| < 1 {
      return;
    }
    var points := [robot] + path;
    var i := 1;
    while i < |points|
      invariant 1 <= i <= |points|
      invariant (commands, heading) == Walk(points[..i], true)
    {
      var current, next := points[i - 1], points[i];
      var needed := DirectionOf(next.0 - current.0, next.1 - current.1);
      var turn := Turn(heading, needed);
      commands := commands + turn.0;
      heading := turn.1;
      commands := commands + [Forward];
      assert points[..i + 1][..i] == points[..i];
      i := i + 1;
    }
    assert points[..i] == points;
  }

  /**
   * generate_commands as the script runs it: nothing for a path of fewer
   * than two cells; otherwise the robot's cell is put in front of the path
   * and each step adds the script's turn and one FORWARD.
   */
  method GenerateScript(path: seq<Cell>, robot: Cell) returns (commands: seq<Command>)
    ensures commands == GenerateAsWritten(path, robot)
  {
    commands := [];
    var heading := East;
    if |path| < 2 {
      return;
    }
    var points := [robot] + path;
    var i := 1;
    while i < |points|
      invariant 1 <= i <= |points|
      invariant (commands, heading) == Walk(points[..i], false)
    {
      var current, next := points[i - 1], points[i];
      var needed := DirectionOf(next.0 - current.0, next.1 - current.1);
      var turn := TurnAsWritten(heading, needed);
      commands := commands + turn.0;
      heading := turn.1;
      commands := commands + [Forward];
      assert points[..i + 1][..i] == points[..i];
      i := i + 1;
    }
    assert points[..i] == points;
  }

  /** One more point on a walk: the turn towards it, then one FORWARD. */
  lemma WalkStep(init: seq<Cell>, p: Cell, q: Cell, fixed: bool, cmds: seq<Command>, h: Direction)
    requires |init| > 0 && init[|init| - 1] == p && Walk(init, fixed).0 == cmds && Walk(init, fixed).1 == h
    ensures var needed := DirectionOf(q.0 - p.0, q.1 - p.1);
      var t := StepTurn(h, needed, fixed);
      Walk(init + [q], fixed).0 == cmds + t.0 + [Forward] && Walk(init + [q], fixed).1 == t.1
  {
    WalkSnoc(init, q, fixed);
  }

  /** The first fixture of Cute/Test_Trajectory.py, through the script: three cells east, then three south. */
  lemma FixtureOne()
    ensures GenerateAsWritten([(0, 1), (0, 2), (0, 3), (1, 3), (2, 3), (3, 3)], (0, 0))
      == [Forward, Forward, Forward, Right, Forward, Forward, Forward]
  {
    var w := [(0, 0)];
    WalkStep(w, (0, 0), (0, 1), false, [], East);
    w := w + [(0, 1)];
    WalkStep(w, (0, 1), (0, 2), false, [Forward], East);
    w := w + [(0, 2)];
    WalkStep(w, (0, 2), (0, 3), false, [Forward, Forward], East);
    w := w + [(0, 3)];
    WalkStep(w, (0, 3), (1, 3), false, [Forward, Forward, Forward], East);
    w := w + [(1, 3)];
    WalkStep(w, (1, 3), (2, 3), false, [Forward, Forward, Forward, Right, Forward], South);
    w := w + [(2, 3)];
    WalkStep(w, (2, 3), (3, 3), false, [Forward, Forward, Forward, Right, Forward, Forward], South);
    w := w + [(3, 3)];
    assert w == [(0, 0)] + [(0, 1), (0, 2), (0, 3), (1, 3), (2, 3), (3, 3)];
  }

  /** The second fixture: three cells north, then three west, from a robot facing east. */
  lemma FixtureTwo()
    ensures GenerateAsWritten([(2, 3), (1, 3), (0, 3), (0, 2), (0, 1), (0, 0)], (3, 3))
      == [Left, Forward, Forward, Forward, Left, Forward, Forward, Forward]
  {
    var w := [(3, 3)];
    WalkStep(w, (3, 3), (2, 3), false, [], East);
    w := w + [(2, 3)];
    WalkStep(w, (2, 3), (1, 3), false, [Left, Forward], North);
    w := w + [(1, 3)];
    WalkStep(w, (1, 3), (0, 3), false, [Left, Forward, Forward], North);
    w := w + [(0, 3)];
    WalkStep(w, (0, 3), (0, 2), false, [Left, Forward, Forward, Forward], North);
    w := w + [(0, 2)];
    WalkStep(w, (0, 2), (0, 1), false, [Left, Forward, Forward, Forward, Left, Forward], West);
    w := w + [(0, 1)];
    WalkStep(w, (0, 1), (0, 0), false, [Left, Forward, Forward, Forward, Left, Forward, Forward], West);
    w := w + [(0, 0)];
    assert w == [(3, 3)] + [(2, 3), (1, 3), (0, 3), (0, 2), (0, 1), (0, 0)];
  }

  /** The third fixture: a staircase that alternates RIGHT and LEFT. */
  lemma FixtureThree()
    ensures GenerateAsWritten([(0, 1), (1, 1), (1, 2), (2, 2), (3, 2), (3, 3)], (0, 0))
      == [Forward, Right, Forward, Left, Forward, Right, Forward, Forward, Left, Forward]
  {
    var w := [(0, 0)];
    WalkStep(w, (0, 0), (0, 1), false, [], East);
    w := w + [(0, 1)];
    WalkStep(w, (0, 1), (1, 1), false, [Forward], East);
    w := w + [(1, 1)];
    WalkStep(w, (1, 1), (1, 2), false, [Forward, Right, Forward], South);
    w := w + [(1, 2)];
    WalkStep(w, (1, 2), (2, 2), false, [Forward, Right, Forward, Left, Forward], East);
    w := w + [(2, 2)];
    WalkStep(w, (2, 2), (3, 2), false, [Forward, Right, Forward, Left, Forward, Right, Forward], South);
    w := w + [(3, 2)];
    WalkStep(w, (3, 2), (3, 3), false, [Forward, Right, Forward, Left, Forward, Right, Forward, Forward], South);
    w := w + [(3, 3)];
    assert w == [(0, 0)] + [(0, 1), (1, 1), (1, 2), (2, 2), (3, 2), (3, 3)];
  }
}
