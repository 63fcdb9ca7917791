/*
 * The console's path planner (Cute/trajectory.py): grid cell codes,
 * Manhattan distance, the 4-neighbourhood, A* with path reconstruction,
 * make_trajectory, and the text the script prints for the console.
 * make_trajectory changes its matrix (a numpy array) in place, so it is an
 * `array2<int>` there; the search only reads the grid, which it gets as
 * rows of values. The search loop is bounded by a `fuel` count.
 */
module Trajectory {
  import opened Text
  import opened Protocol
  import GC = GenerateCommands

  // Cell codes of the planner's grid.
  const Obstacle := 0
  const Passage := 1
  const Unknown := 2
  const Waypoint := 3
  const Destination := 4
  /** The robot's cell is marked with its initial heading, ROBOT_ORIENTATION_EST. */
  const Robot := 5

  type Cell = GC.Cell

  // -------------------------------------------------------------- formatting

  /** "{{{}}}".format(",".join(map(str, xs))): the numbers between braces. */
  function Braced(xs: seq<int>): string
  {
    RowText(xs, '{', '}')
  }

  /**
   * formated_matrice: every row braced, the rows joined by commas, the whole
   * braced. Neither the output separator '|' nor a line break can occur in it.
   */
  function FormattedMatrix(m: seq<seq<int>>): (r: string)
    ensures |r| >= 2 && r[0] == '{' && r[|r| - 1] == '}'
    ensures Lacks(r, '|') && Lacks(r, '\n')
  {
    NestedLacks(m, '{', '}', '|');
    NestedLacks(m, '{', '}', '\n');
    NestedText(m, '{', '}')
  }

  /** format_commands: the codes between braces, again free of '|' and line breaks. */
  function FormatCommands(cs: seq<int>): (r: string)
    ensures |r| >= 2 && r[0] == '{' && r[|r| - 1] == '}'
    ensures Lacks(r, '|') && Lacks(r, '\n')
  {
    LacksJoin(ShowAll(cs), ",", '|');
    LacksJoin(ShowAll(cs), ",", '\n');
    Braced(cs)
  }

  /**
   * The line the script prints: matrix, commands and their count. It holds
   * exactly two '|', right after the matrix and right after the commands,
   * and no line break.
   */
  function ScriptOutput(m: seq<seq<int>>, cs: seq<int>, size: int): (r: string)
    ensures Lacks(r, '\n')
    ensures var a := |FormattedMatrix(m)|; var b := a + 1 + |FormatCommands(cs)|;
      && b < |r| && r[a] == '|' && r[b] == '|'
      && forall i :: 0 <= i < |r| && r[i] == '|' ==> i == a || i == b
  {
    var a, b, c := FormattedMatrix(m), FormatCommands(cs), Show(size);
    Separated(a, b, c, '|', '\n');
    a + "|" + b + "|" + c
  }

  /** Three texts free of `sep` and `nl`, joined by `sep`: `sep` occurs exactly at the two joints, `nl` nowhere. */
  lemma Separated(a: string, b: string, c: string, sep: char, nl: char)
    requires Lacks(a, sep) && Lacks(b, sep) && Lacks(c, sep) && sep != nl
    requires Lacks(a, nl) && Lacks(b, nl) && Lacks(c, nl)
    ensures var r := a + [sep] + b + [sep] + c;
      && Lacks(r, nl) && r[|a|] == sep && r[|a| + 1 + |b|] == sep
      && forall i :: 0 <= i < |r| && r[i] == sep ==> i == |a| || i == |a| + 1 + |b|
  {
    var r := a + [sep] + b + [sep] + c;
    forall i | 0 <= i < |r|
      ensures r[i] != nl && (r[i] == sep ==> i == |a| || i == |a| + 1 + |b|)
    {
      if i < |a| {
        assert r[i] == a[i];
      } else if |a| < i < |a| + 1 + |b| {
        assert r[i] == b[i - |a| - 1];
      } else if |a| + 1 + |b| < i {
        assert r[i] == c[i - |a| - 2 - |b|];
      }
    }
  }

  /** The rows of a two-dimensional array, as values. */
  function Snapshot(a: array2<int>): (m: seq<seq<int>>)
    reads a
    ensures |m| == a.Length0
    ensures forall i :: 0 <= i < |m| ==> |m[i]| == a.Length1 && forall j :: 0 <= j < a.Length1 ==> m[i][j] == a[i, j]
  {
    seq(a.Length0, i requires 0 <= i < a.Length0 reads a =>
      seq(a.Length1, j requires 0 <= j < a.Length1 reads a => a[i, j]))
  }

  /** The commands as the script prints them: FRONT=0, RIGHT=1, LEFT=2. */
  function Codes(cmds: seq<Command>): (r: seq<int>)
    ensures |r| == |cmds| && forall i :: 0 <= i < |cmds| ==> CommandOfCode(r[i]) == Some(cmds[i])
  {
    seq(|cmds|, i requires 0 <= i < |cmds| => CommandCode(cmds[i]) as int)
  }

  // -------------------------------------------------------------- geometry

  function Abs(x: int): nat
  {
    if x < 0 then -x else x
  }

  /** manhattan_distance. */
  function Manhattan(a: Cell, b: Cell): (d: int)
    ensures d >= 0 && (d == 0 <==> a == b)
  {
    Abs(a.0 - b.0) + Abs(a.1 - b.1)
  }

  /** The distance is a metric, and distance one is exactly a step to a 4-adjacent cell. */
  lemma ManhattanMetric(a: Cell, b: Cell, c: Cell)
    ensures Manhattan(a, b) == Manhattan(b, a)
    ensures Manhattan(a, c) <= Manhattan(a, b) + Manhattan(b, c)
    ensures Manhattan(a, b) == 1 <==> GC.UnitStep(a, b)
  {
  }

  /** The numpy grid: rows of equal length. */
  predicate Rectangular(grid: seq<seq<int>>)
  {
    forall i :: 0 <= i < |grid| ==> |grid[i]| == |grid[0]|
  }

  /** A cell get_neighbors lets the search enter: inside the grid, and PASSAGE or DESTINATION. */
  predicate Open(grid: seq<seq<int>>, c: Cell)
  {
    0 <= c.0 < |grid| && 0 <= c.1 < |grid[c.0]| && (grid[c.0][c.1] == Passage || grid[c.0][c.1] == Destination)
  }

  /** The directions get_neighbors tries, in order. */
  const Directions: seq<Cell> := [(0, 1), (1, 0), (-1, 0), (0, -1)]

  /** The cell one step from node in the k-th direction. */
  function Toward(node: Cell, k: nat): Cell
    requires k < |Directions|
  {
    (node.0 + Directions[k].0, node.1 + Directions[k].1)
  }

  /** The open cells among the first k directions from node, in order. */
  function NeighborsUpTo(grid: seq<seq<int>>, node: Cell, k: nat): seq<Cell>
    requires k <= |Directions|
  {
    if k == 0 then []
    else
      var c := Toward(node, k - 1);
      NeighborsUpTo(grid, node, k - 1) + if Open(grid, c) then [c] else []
  }

  /** get_neighbors finds each open 4-adjacent cell, and only those. */
  lemma NeighborsAreOpenSteps(grid: seq<seq<int>>, node: Cell)
    ensures forall c :: c in NeighborsUpTo(grid, node, 4) <==> GC.UnitStep(node, c) && Open(grid, c)
  {
    forall c
      ensures c in NeighborsUpTo(grid, node, 4) <==> GC.UnitStep(node, c) && Open(grid, c)
    {
      NeighborsStep(grid, node, 4, c);
      NeighborsStep(grid, node, 3, c);
      NeighborsStep(grid, node, 2, c);
      NeighborsStep(grid, node, 1, c);
      UnitStepCells(node, c);
    }
  }

  /** The 4-adjacent cells are the cells one direction away. */
  lemma UnitStepCells(node: Cell, c: Cell)
    ensures GC.UnitStep(node, c) <==> c == Toward(node, 0) || c == Toward(node, 1) || c == Toward(node, 2) || c == Toward(node, 3)
  {
  }

  /** The k-th direction tried adds its cell if that cell is open. */
  lemma NeighborsStep(grid: seq<seq<int>>, node: Cell, k: nat, c: Cell)
    requires 0 < k <= |Directions|
    ensures c in NeighborsUpTo(grid, node, k) <==>
      c in NeighborsUpTo(grid, node, k - 1) || (c == Toward(node, k - 1) && Open(grid, c))
  {
  }

  /** get_neighbors. */
  method GetNeighbors(node: Cell, grid: seq<seq<int>>) returns (neighbors: seq<Cell>)
    requires Rectangular(grid)
    ensures neighbors == NeighborsUpTo(grid, node, 4)
    ensures forall c :: c in neighbors <==> GC.UnitStep(node, c) && Open(grid, c)
  {
    neighbors := [];
    var k := 0;
    while k < |Directions|
      invariant 0 <= k <= |Directions| && neighbors == NeighborsUpTo(grid, node, k)
    {
      var x, y := node.0 + Directions[k].0, node.1 + Directions[k].1;
      if 0 <= x < |grid| && 0 <= y < |grid[0]| && (grid[x][y] == Passage || grid[x][y] == Destination) {
        neighbors := neighbors + [(x, y)];
      }
      k := k + 1;
    }
    NeighborsAreOpenSteps(grid, node);
  }

  // -------------------------------------------------------------- paths

  /** g scores are never negative and strictly increase along came_from. */
  predicate Ranked(cameFrom: map<Cell, Cell>, g: map<Cell, int>)
  {
    && (forall k :: k in g ==> g[k] >= 0)
    && forall k :: k in cameFrom ==> k in g && cameFrom[k] in g && g[cameFrom[k]] < g[k]
  }

  /** Every came_from entry links a cell to an adjacent predecessor, and the cell is open. */
  predicate Linked(cameFrom: map<Cell, Cell>, grid: seq<seq<int>>)
  {
    forall k :: k in cameFrom ==> GC.UnitStep(cameFrom[k], k) && Open(grid, k)
  }

  function Rank(cameFrom: map<Cell, Cell>, g: map<Cell, int>, c: Cell): nat
    requires Ranked(cameFrom, g)
  {
    if c in cameFrom then g[c] + 1 else 0
  }

  /** The cells reconstruct_path returns for c: its chain of predecessors, oldest first, without the first one. */
  function PathBack(cameFrom: map<Cell, Cell>, g: map<Cell, int>, c: Cell): seq<Cell>
    requires Ranked(cameFrom, g)
    decreases Rank(cameFrom, g, c)
  {
    if c in cameFrom then PathBack(cameFrom, g, cameFrom[c]) + [c] else []
  }

  /** The first cell of c's chain: the one without a predecessor. */
  function Root(cameFrom: map<Cell, Cell>, g: map<Cell, int>, c: Cell): Cell
    requires Ranked(cameFrom, g)
    decreases Rank(cameFrom, g, c)
  {
    if c in cameFrom then Root(cameFrom, g, cameFrom[c]) else c
  }

  /** A path from start to goal: open cells, each 4-adjacent to the one before, the first to start, ending at goal. */
  predicate Leads(start: Cell, path: seq<Cell>, goal: Cell, grid: seq<seq<int>>)
  {
    && |path| > 0 && path[|path| - 1] == goal
    && GC.IsWalk([start] + path)
    && forall i :: 0 <= i < |path| ==> Open(grid, path[i])
  }

  /** No cell occurs twice. */
  predicate Simple(path: seq<Cell>)
  {
    forall i, j :: 0 <= i < j < |path| ==> path[i] != path[j]
  }

  lemma WalkSnoc(s: seq<Cell>, x: Cell)
    requires |s| > 0 && GC.IsWalk(s) && GC.UnitStep(s[|s| - 1], x)
    ensures GC.IsWalk(s + [x])
  {
    var t := s + [x];
    forall i | 0 <= i < |t| - 1
      ensures GC.UnitStep(t[i], t[i + 1])
    {
      if i < |s| - 1 {
        assert t[i] == s[i] && t[i + 1] == s[i + 1];
      }
    }
  }

  /**
   * The chain behind any cell of a ranked, linked came_from is a path:
   * from the chain's first cell, through open adjacent cells with strictly
   * increasing g scores, to the cell itself; a cell with no predecessor
   * has an empty chain.
   */
  lemma {:induction false} PathBackLeads(cameFrom: map<Cell, Cell>, g: map<Cell, int>, grid: seq<seq<int>>, c: Cell)
    requires Ranked(cameFrom, g) && Linked(cameFrom, grid)
    ensures var p, r := PathBack(cameFrom, g, c), Root(cameFrom, g, c);
      && r !in cameFrom
      && (c !in cameFrom ==> p == [] && r == c)
      && (c in cameFrom ==> r in g && Leads(r, p, c, grid))
      && (forall i :: 0 <= i < |p| ==> p[i] in g && g[p[i]] <= g[c])
      && (forall i, j :: 0 <= i < j < |p| ==> g[p[i]] < g[p[j]])
    decreases Rank(cameFrom, g, c)
  {
    if c in cameFrom {
      var pred := cameFrom[c];
      PathBackLeads(cameFrom, g, grid, pred);
      var q := PathBack(cameFrom, g, pred);
      var r := Root(cameFrom, g, c);
      var p := q + [c];
      assert PathBack(cameFrom, g, c) == p;
      if pred in cameFrom {
        assert Leads(r, q, pred, grid);
        assert ([r] + q) + [c] == [r] + p;
        WalkSnoc([r] + q, c);
      } else {
        assert [r] + p == [pred, c];
      }
      assert forall i :: 0 <= i < |q| ==> p[i] == q[i];
    }
  }

  function Reversed(s: seq<Cell>): (r: seq<Cell>)
    ensures |r| == |s| && forall i :: 0 <= i < |s| ==> r[i] == s[|s| - 1 - i]
  {
    seq(|s|, i requires 0 <= i < |s| => s[|s| - 1 - i])
  }

  /**
   * reconstruct_path: follow came_from back from `current`, collecting
   * cells, and reverse them. The g scores (`ranks`) only serve to show
   * that the walk back ends.
   */
  method ReconstructPath(cameFrom: map<Cell, Cell>, current: Cell, ghost ranks: map<Cell, int>) returns (path: seq<Cell>)
    requires Ranked(cameFrom, ranks)
    ensures path == PathBack(cameFrom, ranks, current)
  {
    var back: seq<Cell> := [];
    var c := current;
    while c in cameFrom
      invariant PathBack(cameFrom, ranks, current) == PathBack(cameFrom, ranks, c) + Reversed(back)
      decreases Rank(cameFrom, ranks, c)
    {
      assert Reversed(back + [c]) == [c] + Reversed(back);
      back := back + [c];
      c := cameFrom[c];
    }
    path := Reversed(back);
  }

  // -------------------------------------------------------------- A*

  /** An open-set entry: the f score it was pushed with, and the cell. */
  type Entry = (int, Cell)

  /** Python's tuple order, by f score, then row, then column. */
  predicate Before(a: Entry, b: Entry)
  {
    a.0 < b.0 || (a.0 == b.0 && (a.1.0 < b.1.0 || (a.1.0 == b.1.0 && a.1.1 < b.1.1)))
  }

  /** The index of the entry heappop removes: one no other entry comes before. */
  function Least(s: seq<Entry>): (k: nat)
    requires |s| > 0
    ensures k < |s| && forall i :: 0 <= i < |s| ==> !Before(s[i], s[k])
  {
    if |s| == 1 then 0
    else
      var k := Least(s[..|s| - 1]);
      if Before(s[|s| - 1], s[k]) then |s| - 1 else k
  }

  /** [i[1] for i in open_set]. */
  function Cells(s: seq<Entry>): (r: seq<Cell>)
    ensures |r| == |s| && forall i :: 0 <= i < |s| ==> r[i] == s[i].1
  {
    seq(|s|, i requires 0 <= i < |s| => s[i].1)
  }

  /** Every open cell next to n has a g score. */
  ghost predicate Closed(grid: seq<seq<int>>, g: map<Cell, int>, n: Cell)
  {
    forall m :: GC.UnitStep(n, m) && Open(grid, m) ==> m in g
  }

  /**
   * What a_star_search keeps true between iterations: the came_from chains
   * are ranked and linked and all lead back to start, every queued cell
   * has a g score, the goal is queued once it has one, and every scored
   * cell that is not queued has had all its open neighbours scored.
   */
  ghost predicate Searching(start: Cell, goal: Cell, grid: seq<seq<int>>, open: seq<Entry>, cameFrom: map<Cell, Cell>, g: map<Cell, int>)
  {
    && Ranked(cameFrom, g) && Linked(cameFrom, grid)
    && start in g && g[start] == 0 && start !in cameFrom
    && (forall k :: k in g ==> k == start || k in cameFrom)
    && (forall n :: n in Cells(open) ==> n in g)
    && (goal in g ==> goal in Cells(open))
    && forall n :: n in g ==> n in Cells(open) || Closed(grid, g, n)
  }

  /** The result of a_star_search, or the search stopped for lack of fuel. */
  datatype Search = Returned(path: seq<Cell>) | OutOfFuel

  /**
   * a_star_search. A non-empty result is a path of distinct open cells from
   * start to goal; an empty one means that start is the goal or that no
   * path exists at all.
   */
  method AStar(start: Cell, goal: Cell, grid: seq<seq<int>>, fuel: nat) returns (r: Search)
    requires Rectangular(grid)
    ensures r.Returned? && r.path != [] ==> Leads(start, r.path, goal, grid) && Simple(r.path)
    ensures r.Returned? && r.path == [] ==> goal == start || forall w :: !Leads(start, w, goal, grid)
  {
    var open: seq<Entry> := [(0, start)];
    var cameFrom: map<Cell, Cell> := map[];
    var g: map<Cell, int> := map[start := 0];
    var f: map<Cell, int> := map[start := Manhattan(start, goal)];
    var budget := fuel;
    assert Cells(open) == [start];
    while open != []
      invariant Searching(start, goal, grid, open, cameFrom, g)
      decreases budget
    {
      if budget == 0 {
        return OutOfFuel;
      }
      budget := budget - 1;
      var k := Least(open);
      var current := open[k].1;
      ghost var before := open;
      open := open[..k] + open[k + 1..];
      if current == goal {
        var path := ReconstructPath(cameFrom, current, g);
        FoundLeads(start, goal, grid, before, cameFrom, g);
        return Returned(path);
      }
      PopKeeps(start, goal, grid, before, k, cameFrom, g);
      open, cameFrom, g, f := Expand(start, goal, grid, current, open, cameFrom, g, f);
    }
    NothingLeads(start, goal, grid, g);
    return Returned([]);
  }

  /**
   * The body of the loop over get_neighbors(current): every open neighbour
   * reached more cheaply through `current` gets `current` as predecessor,
   * the cheaper g score and its f score, and is queued unless it is queued
   * already. Afterwards `current` is closed.
   */
  method Expand(ghost start: Cell, goal: Cell, grid: seq<seq<int>>, current: Cell,
                open: seq<Entry>, cameFrom: map<Cell, Cell>, g: map<Cell, int>, f: map<Cell, int>)
    returns (open': seq<Entry>, cameFrom': map<Cell, Cell>, g': map<Cell, int>, f': map<Cell, int>)
    requires Rectangular(grid) && Expanding(start, goal, grid, open, cameFrom, g, current)
    ensures Searching(start, goal, grid, open', cameFrom', g')
  {
    open', cameFrom', g', f' := open, cameFrom, g, f;
    var neighbors := GetNeighbors(current, grid);
    var j := 0;
    while j < |neighbors|
      invariant 0 <= j <= |neighbors|
      invariant Expanding(start, goal, grid, open', cameFrom', g', current)
      invariant forall c :: c in neighbors[..j] ==> c in g'
    {
      open', cameFrom', g', f' := Relax(start, goal, grid, current, neighbors[j], open', cameFrom', g', f', neighbors[..j]);
      TakeOneMore(neighbors, j);
      j := j + 1;
    }
    assert neighbors[..j] == neighbors;
    assert Closed(grid, g', current) by {
      forall m | GC.UnitStep(current, m) && Open(grid, m)
        ensures m in g'
      {
        assert m in neighbors;
      }
    }
  }

  /** One neighbour of `current`: record a cheaper way to it, and queue it unless it is queued already. */
  method Relax(ghost start: Cell, goal: Cell, grid: seq<seq<int>>, current: Cell, neighbor: Cell,
               open: seq<Entry>, cameFrom: map<Cell, Cell>, g: map<Cell, int>, f: map<Cell, int>, ghost done: seq<Cell>)
    returns (open': seq<Entry>, cameFrom': map<Cell, Cell>, g': map<Cell, int>, f': map<Cell, int>)
    requires Expanding(start, goal, grid, open, cameFrom, g, current)
    requires GC.UnitStep(current, neighbor) && Open(grid, neighbor)
    requires forall c :: c in done ==> c in g
    ensures Expanding(start, goal, grid, open', cameFrom', g', current)
    ensures forall c :: c in done + [neighbor] ==> c in g'
  {
    open', cameFrom', g', f' := open, cameFrom, g, f;
    var tentative := g[current] + 1;
    if neighbor !in g || tentative < g[neighbor] {
      cameFrom' := cameFrom[neighbor := current];
      g' := g[neighbor := tentative];
      f' := f[neighbor := tentative + Manhattan(neighbor, goal)];
      if neighbor !in Cells(open) {
        open' := open + [(f'[neighbor], neighbor)];
        assert Cells(open') == Cells(open) + [neighbor];
      }
      Relaxes(start, goal, grid, open, cameFrom, g, current, neighbor, open');
    }
  }

  lemma TakeOneMore(s: seq<Cell>, j: nat)
    requires j < |s|
    ensures s[..j + 1] == s[..j] + [s[j]]
  {
  }

  /** Taking a cell other than the goal off the queue leaves the search expanding that cell. */
  lemma PopKeeps(start: Cell, goal: Cell, grid: seq<seq<int>>, open: seq<Entry>, k: nat, cameFrom: map<Cell, Cell>, g: map<Cell, int>)
    requires Searching(start, goal, grid, open, cameFrom, g) && k < |open| && open[k].1 != goal
    ensures Expanding(start, goal, grid, open[..k] + open[k + 1..], cameFrom, g, open[k].1)
  {
    RemovedKeepsOthers(open, k);
    var t := open[..k] + open[k + 1..];
    forall n | n in Cells(t)
      ensures n in g
    {
      var i :| 0 <= i < |t| && t[i].1 == n;
    }
  }

  /** Taking entry k out of the queue keeps every other cell queued. */
  lemma RemovedKeepsOthers(s: seq<Entry>, k: nat)
    requires k < |s|
    ensures forall n :: n in Cells(s) && n != s[k].1 ==> n in Cells(s[..k] + s[k + 1..])
    ensures var t := s[..k] + s[k + 1..];
      |t| == |s| - 1 && forall i :: 0 <= i < |t| ==> t[i] == if i < k then s[i] else s[i + 1]
  {
    var t := s[..k] + s[k + 1..];
    forall n | n in Cells(s) && n != s[k].1
      ensures n in Cells(t)
    {
      var i :| 0 <= i < |s| && s[i].1 == n;
      if i < k {
        assert t[i] == s[i];
      } else {
        assert t[i - 1] == s[i];
      }
    }
  }

  /** What holds while the neighbours of `current` are examined: as between iterations, except that `current` may not yet be closed. */
  ghost predicate Expanding(start: Cell, goal: Cell, grid: seq<seq<int>>, open: seq<Entry>, cameFrom: map<Cell, Cell>, g: map<Cell, int>, current: Cell)
  {
    && Ranked(cameFrom, g) && Linked(cameFrom, grid)
    && start in g && g[start] == 0 && start !in cameFrom && current in g
    && (forall k :: k in g ==> k == start || k in cameFrom)
    && (forall n :: n in Cells(open) ==> n in g)
    && (goal in g ==> goal in Cells(open))
    && forall n :: n in g ==> n == current || n in Cells(open) || Closed(grid, g, n)
  }

  /**
   * Recording a shorter way to an open neighbour, and queueing it unless it
   * is queued already, keeps the chains ranked, linked and leading back to
   * start, and keeps every scored cell queued or closed.
   */
  lemma Relaxes(start: Cell, goal: Cell, grid: seq<seq<int>>, open: seq<Entry>, cameFrom: map<Cell, Cell>, g: map<Cell, int>,
                current: Cell, neighbor: Cell, open2: seq<Entry>)
    requires Expanding(start, goal, grid, open, cameFrom, g, current)
    requires GC.UnitStep(current, neighbor) && Open(grid, neighbor)
    requires neighbor !in g || g[current] + 1 < g[neighbor]
    requires Cells(open2) == if neighbor in Cells(open) then Cells(open) else Cells(open) + [neighbor]
    ensures Expanding(start, goal, grid, open2, cameFrom[neighbor := current], g[neighbor := g[current] + 1], current)
  {
    var c2, g2 := cameFrom[neighbor := current], g[neighbor := g[current] + 1];
    RelaxesRanked(start, grid, cameFrom, g, current, neighbor);
    assert forall n :: n in Cells(open) ==> n in Cells(open2);
    assert neighbor in Cells(open2);
    forall n | n in g2 && n != current && n !in Cells(open2)
      ensures Closed(grid, g2, n)
    {
      assert Closed(grid, g, n);
    }
  }

  lemma RelaxesRanked(start: Cell, grid: seq<seq<int>>, cameFrom: map<Cell, Cell>, g: map<Cell, int>, current: Cell, neighbor: Cell)
    requires Ranked(cameFrom, g) && Linked(cameFrom, grid)
    requires start in g && g[start] == 0 && current in g
    requires GC.UnitStep(current, neighbor) && Open(grid, neighbor)
    requires neighbor !in g || g[current] + 1 < g[neighbor]
    ensures neighbor != start
    ensures Ranked(cameFrom[neighbor := current], g[neighbor := g[current] + 1])
    ensures Linked(cameFrom[neighbor := current], grid)
  {
    var c2, g2 := cameFrom[neighbor := current], g[neighbor := g[current] + 1];
    forall k | k in c2
      ensures k in g2 && c2[k] in g2 && g2[c2[k]] < g2[k]
    {
      if k != neighbor {
        assert c2[k] == cameFrom[k];
      }
    }
  }

  /** When the goal is taken from the queue, the chain behind it is a path from start, or empty when the goal is start. */
  lemma FoundLeads(start: Cell, goal: Cell, grid: seq<seq<int>>, open: seq<Entry>, cameFrom: map<Cell, Cell>, g: map<Cell, int>)
    requires Searching(start, goal, grid, open, cameFrom, g) && goal in Cells(open)
    ensures var p := PathBack(cameFrom, g, goal);
      (p != [] ==> Leads(start, p, goal, grid) && Simple(p)) && (p == [] ==> goal == start)
  {
    var i :| 0 <= i < |open| && open[i].1 == goal;
    PathBackLeads(cameFrom, g, grid, goal);
    var p := PathBack(cameFrom, g, goal);
    forall i, j | 0 <= i < j < |p|
      ensures p[i] != p[j]
    {
      assert g[p[i]] < g[p[j]];
    }
  }

  /** Once the queue is empty, the goal has no g score, so no path reaches it. */
  lemma NothingLeads(start: Cell, goal: Cell, grid: seq<seq<int>>, g: map<Cell, int>)
    requires start in g && (goal in g ==> goal in Cells([]))
    requires forall n :: n in g ==> n in Cells([]) || Closed(grid, g, n)
    ensures forall w :: !Leads(start, w, goal, grid)
  {
    forall w
      ensures !Leads(start, w, goal, grid)
    {
      if Leads(start, w, goal, grid) {
        ReachedIsScored(start, grid, g, w);
      }
    }
  }

  /** With every scored cell closed, every cell of a walk from a scored start is scored. */
  lemma ReachedIsScored(start: Cell, grid: seq<seq<int>>, g: map<Cell, int>, w: seq<Cell>)
    requires start in g && forall n :: n in g ==> Closed(grid, g, n)
    requires GC.IsWalk([start] + w) && forall i :: 0 <= i < |w| ==> Open(grid, w[i])
    ensures forall i :: 0 <= i < |w| ==> w[i] in g
  {
    var s := [start] + w;
    var i := 0;
    while i < |w|
      invariant 0 <= i <= |w| && forall t :: 0 <= t < i ==> w[t] in g
    {
      var prev := if i == 0 then start else w[i - 1];
      assert s[i] == prev && s[i + 1] == w[i];
      assert Closed(grid, g, prev);
      i := i + 1;
    }
  }

  // -------------------------------------------------------------- make_trajectory

  /** The matrix after `matrix[matrix == UNKNOWN] = OBSTACLE`. */
  function Cleared(m: seq<seq<int>>): (r: seq<seq<int>>)
    ensures |r| == |m|
    ensures forall i :: 0 <= i < |m| ==> |r[i]| == |m[i]|
    ensures forall i, j :: 0 <= i < |m| && 0 <= j < |m[i]| ==> r[i][j] == if m[i][j] == Unknown then Obstacle else m[i][j]
  {
    seq(|m|, i requires 0 <= i < |m| => seq(|m[i]|, j requires 0 <= j < |m[i]| => if m[i][j] == Unknown then Obstacle else m[i][j]))
  }

  /** Row-major order. */
  predicate Earlier(a: Cell, b: Cell)
  {
    a.0 < b.0 || (a.0 == b.0 && a.1 < b.1)
  }

  function FirstInRow(row: seq<int>, v: int, j: nat): (r: Option<int>)
    ensures r.Some? ==> j <= r.value < |row| && row[r.value] == v && forall c :: j <= c < r.value ==> row[c] != v
    ensures r.None? ==> forall c :: j <= c < |row| ==> row[c] != v
    decreases |row| - j
  {
    if j >= |row| then None
    else if row[j] == v then Some(j)
    else FirstInRow(row, v, j + 1)
  }

  function FirstFrom(m: seq<seq<int>>, v: int, i: nat): (r: Option<Cell>)
    ensures r.Some? ==> i <= r.value.0 < |m| && 0 <= r.value.1 < |m[r.value.0]| && m[r.value.0][r.value.1] == v
    ensures r.Some? ==> forall x, y :: i <= x < |m| && 0 <= y < |m[x]| && Earlier((x, y), r.value) ==> m[x][y] != v
    ensures r.None? ==> forall x, y :: i <= x < |m| && 0 <= y < |m[x]| ==> m[x][y] != v
    decreases |m| - i
  {
    if i >= |m| then None
    else
      match FirstInRow(m[i], v, 0)
      case Some(j) => Some((i, j))
      case None => FirstFrom(m, v, i + 1)
  }

  /**
   * find_robot_and_destination, for one value: np.argwhere's first cell
   * holding v, in row-major order; none if no cell holds it.
   */
  function FirstCell(m: seq<seq<int>>, v: int): (r: Option<Cell>)
    ensures r.Some? ==> 0 <= r.value.0 < |m| && 0 <= r.value.1 < |m[r.value.0]| && m[r.value.0][r.value.1] == v
    ensures r.Some? ==> forall x, y :: 0 <= x < |m| && 0 <= y < |m[x]| && Earlier((x, y), r.value) ==> m[x][y] != v
    ensures r.None? ==> forall x, y :: 0 <= x < |m| && 0 <= y < |m[x]| ==> m[x][y] != v
  {
    FirstFrom(m, v, 0)
  }

  /** A cell once the path is drawn: path cells other than the robot's and the destination's become WAYPOINT. */
  function MarkedCell(m: seq<seq<int>>, path: seq<Cell>, i: int, j: int): int
    requires 0 <= i < |m| && 0 <= j < |m[i]|
  {
    if (i, j) in path && m[i][j] != Robot && m[i][j] != Destination then Waypoint else m[i][j]
  }

  /** What make_trajectory returns. */
  datatype Plan =
    | MissingEndpoint                             // no robot or no destination: the pair (matrix, [])
    | NoPath                                      // "No path found" is printed and the pair returned
    | Planned(commands: seq<Command>, size: int)  // the triple (matrix, commands, size)
    | SearchUnfinished                            // the search ran out of fuel

  /**
   * make_trajectory: unknown cells become obstacles; the first robot and
   * destination cells are looked up; the path found between them is drawn
   * as waypoints and handed to generate_commands as the script writes it.
   * Those commands drive the robot from its cell, facing EST, along the
   * path to the destination when the path has two cells or more and does
   * not start to the west; the corrected generator does so on every path
   * found. `path` is the path found, empty unless a plan is made.
   */
  method MakeTrajectory(matrix: array2<int>, fuel: nat) returns (plan: Plan, ghost path: seq<Cell>)
    modifies matrix
    ensures var m := Cleared(old(Snapshot(matrix)));
      forall i, j :: 0 <= i < matrix.Length0 && 0 <= j < matrix.Length1 ==> matrix[i, j] == MarkedCell(m, path, i, j)
    ensures var m := Cleared(old(Snapshot(matrix)));
      var robot, dest := FirstCell(m, Robot), FirstCell(m, Destination);
      && (plan == MissingEndpoint <==> robot.None? || dest.None?)
      && (!plan.Planned? ==> path == [])
      && (plan == NoPath ==> forall w :: !Leads(robot.value, w, dest.value, m))
      && (plan.Planned? ==>
            && Leads(robot.value, path, dest.value, m) && Simple(path)
            && plan.commands == GC.GenerateAsWritten(path, robot.value) && plan.size == |plan.commands|
            && (|path| >= 2 && path[0] != (robot.value.0, robot.value.1 - 1) ==>
                  && GC.Drive(robot.value, East, plan.commands).at == dest.value
                  && GC.Drive(robot.value, East, plan.commands).visited == path)
            && GC.Drive(robot.value, East, GC.Walk([robot.value] + path, true).0).at == dest.value
            && GC.Drive(robot.value, East, GC.Walk([robot.value] + path, true).0).visited == path)
  {
    ClearUnknown(matrix);
    var m := Snapshot(matrix);
    path := [];
    var robot, dest := FirstCell(m, Robot), FirstCell(m, Destination);
    if robot.None? || dest.None? {
      return MissingEndpoint, [];
    }
    var found := AStar(robot.value, dest.value, m, fuel);
    if found.OutOfFuel? {
      return SearchUnfinished, [];
    }
    if found.path == [] {
      return NoPath, [];
    }
    var route := found.path;
    path := route;
    assert forall c :: c in route ==> Open(m, c);
    DrawPath(matrix, route, m);
    var commands := GC.GenerateScript(route, robot.value);
    assert !Open(m, robot.value);
    PlanDrives(robot.value, route, dest.value, m);
    plan := Planned(commands, |commands|);
  }

  /**
   * The commands for a path found from a cell that is not open: the script's
   * reach the goal along the path when the path has two cells or more and
   * does not start to the west; the corrected generator's always do.
   */
  lemma PlanDrives(start: Cell, path: seq<Cell>, goal: Cell, grid: seq<seq<int>>)
    requires Leads(start, path, goal, grid) && Simple(path) && !Open(grid, start)
    ensures var cmds := GC.GenerateAsWritten(path, start);
      |path| >= 2 && path[0] != (start.0, start.1 - 1) ==>
        GC.Drive(start, East, cmds).at == goal && GC.Drive(start, East, cmds).visited == path
    ensures var d := GC.Drive(start, East, GC.Walk([start] + path, true).0);
      d.at == goal && d.visited == path
  {
    var points := [start] + path;
    GC.WalkDrives(points);
    assert points[1..] == path && points[|points| - 1] == goal;
    if |path| >= 2 && path[0] != (start.0, start.1 - 1) {
      NoStepBack(start, path, grid);
      GC.AsWrittenAgrees(points);
    }
  }

  /** A simple path of open cells after a cell that is not open never steps straight back. */
  lemma NoStepBack(start: Cell, path: seq<Cell>, grid: seq<seq<int>>)
    requires !Open(grid, start) && Simple(path)
    requires forall i :: 0 <= i < |path| ==> Open(grid, path[i])
    ensures var points := [start] + path;
      forall i :: 0 <= i < |points| - 2 ==> points[i + 2] != points[i]
  {
    var points := [start] + path;
    forall i | 0 <= i < |points| - 2
      ensures points[i + 2] != points[i]
    {
      if i == 0 {
        assert points[2] == path[1];
      } else {
        assert points[i + 2] == path[i + 1] && points[i] == path[i - 1];
      }
    }
  }

  /** `matrix[matrix == UNKNOWN] = OBSTACLE`. */
  method ClearUnknown(matrix: array2<int>)
    modifies matrix
    ensures Snapshot(matrix) == Cleared(old(Snapshot(matrix)))
  {
    ghost var m0 := Snapshot(matrix);
    forall i, j | 0 <= i < matrix.Length0 && 0 <= j < matrix.Length1 && matrix[i, j] == Unknown {
      matrix[i, j] := Obstacle;
    }
    var m := Snapshot(matrix);
    forall i | 0 <= i < |m|
      ensures m[i] == Cleared(m0)[i]
    {
      assert |m[i]| == |Cleared(m0)[i]|;
    }
  }

  /** The marking loop of make_trajectory: every path cell but the robot's and the destination's becomes WAYPOINT. */
  method DrawPath(matrix: array2<int>, route: seq<Cell>, ghost m: seq<seq<int>>)
    requires m == Snapshot(matrix)
    requires forall c :: c in route ==> 0 <= c.0 < matrix.Length0 && 0 <= c.1 < matrix.Length1
    modifies matrix
    ensures forall i, j :: 0 <= i < matrix.Length0 && 0 <= j < matrix.Length1 ==> matrix[i, j] == MarkedCell(m, route, i, j)
  {
    var k := 0;
    while k < |route|
      invariant 0 <= k <= |route|
      invariant forall i, j :: 0 <= i < matrix.Length0 && 0 <= j < matrix.Length1 ==> matrix[i, j] == MarkedCell(m, route[..k], i, j)
    {
      var (x, y) := route[k];
      if matrix[x, y] != Robot && matrix[x, y] != Destination {
        matrix[x, y] := Waypoint;
      }
      assert route[..k + 1] == route[..k] + [route[k]];
      k := k + 1;
    }
    assert route[..k] == route;
  }

  /** What the script prints on standard output: the result line, or "No path found" before the unpacking fails. */
  function Printed(plan: Plan, m: seq<seq<int>>): (r: Option<string>)
    ensures r.None? <==> plan.SearchUnfinished?
    ensures r.Some? && r.value != "" ==> r.value[|r.value| - 1] == '\n' && Lacks(r.value[..|r.value| - 1], '\n')
  {
    match plan
    case Planned(cmds, size) =>
      var line := ScriptOutput(m, Codes(cmds), size);
      assert (line + "\n")[..|line|] == line;
      Some(line + "\n")
    case NoPath => Some("No path found\n")
    case MissingEndpoint => Some("")
    case SearchUnfinished => None
  }
}
