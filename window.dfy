/*
 * The console window's bridge to the path planner (Cute/window.cpp): the
 * map matrix is written as a Python list literal for the planner's
 * command line, and the line the planner prints is cut into its three
 * parts, the map updated from the first and the command list decoded
 * from the second and sent to the robot. Launching the process and the
 * Qt widgets are not modelled; the planner's output and each socket
 * write's outcome are parameters.
 */
module Window {
  import opened Text
  import opened Protocol
  import opened Mailbox
  import Trajectory
  import CuteMap
  import CutePostman
  import CuteProxyPilot

  /** The row width fixed by convertMatrixToString's parameter type. */
  const Width := 20

  // ------------------------------------------------------ matrix to text

  /** The Python list literal of each row. */
  function ListRows(m: seq<seq<int>>): (r: seq<string>)
    ensures |r| == |m| && forall i :: 0 <= i < |m| ==> r[i] == RowText(m[i], '[', ']')
  {
    seq(|m|, i requires 0 <= i < |m| => RowText(m[i], '[', ']'))
  }

  lemma ListRowsSnoc(m: seq<seq<int>>, row: seq<int>)
    ensures ListRows(m + [row]) == ListRows(m) + [RowText(row, '[', ']')]
  {
  }

  lemma ShowAllSnoc(xs: seq<int>, x: int)
    ensures ShowAll(xs + [x]) == ShowAll(xs) + [Show(x)]
  {
  }

  /** Appending one more element to a comma list that ends with its separator, or is empty. */
  lemma {:induction false} ExtendList(parts: seq<string>, x: string)
    ensures (if |parts| > 0 then Join(parts, ",") + "," else "") + x == Join(parts + [x], ",")
  {
    if |parts| > 0 {
      JoinSnoc(parts, ",", x);
    } else {
      assert parts + [x] == [x];
    }
  }

  /** What convertMatrixToString has written once `i` of the `rows` rows are done. */
  function Opened(m: seq<seq<int>>, rows: int, i: nat): string
    requires i <= |m|
  {
    "[" + if i > 0 then Join(ListRows(m[..i]), ",") + (if i < rows then "," else "") else ""
  }

  /** What it has written once `j` numbers of row `i` are done. */
  function InRow(m: seq<seq<int>>, rows: int, i: nat, j: nat): string
    requires i < |m| && j <= |m[i]|
  {
    Opened(m, rows, i) + "[" + if j > 0 then RowBody(m[i][..j]) + (if j < |m[i]| then "," else "") else ""
  }

  lemma RowOpens(m: seq<seq<int>>, rows: int, i: nat)
    requires i < |m|
    ensures InRow(m, rows, i, 0) == Opened(m, rows, i) + "["
  {
  }

  lemma TakeSnoc<T>(s: seq<T>, i: nat)
    requires i < |s|
    ensures s[..i + 1] == s[..i] + [s[i]]
  {
  }

  /** The numbers up to and including `j`, written. */
  lemma RowBodyStep(row: seq<int>, j: nat)
    requires j < |row|
    ensures (if j > 0 then RowBody(row[..j]) + "," else "") + Show(row[j]) == RowBody(row[..j + 1])
  {
    ExtendList(ShowAll(row[..j]), Show(row[j]));
    TakeSnoc(row, j);
    ShowAllSnoc(row[..j], row[j]);
  }

  /** One more number written into a row. */
  lemma RowStep(m: seq<seq<int>>, rows: int, i: nat, j: nat)
    requires i < |m| && j < |m[i]|
    ensures j < |m[i]| - 1 ==> InRow(m, rows, i, j + 1) == InRow(m, rows, i, j) + Show(m[i][j]) + ","
    ensures j == |m[i]| - 1 ==> InRow(m, rows, i, j + 1) == InRow(m, rows, i, j) + Show(m[i][j])
  {
    var pre := Opened(m, rows, i) + "[";
    var done := if j > 0 then RowBody(m[i][..j]) + "," else "";
    var x := Show(m[i][j]);
    RowBodyStep(m[i], j);
    if j < |m[i]| - 1 {
      Regroup(pre, done, x, ",");
    } else {
      Regroup(pre, done, x, "");
      assert pre + done + x + "" == pre + done + x;
    }
  }

  /** One more row written into the matrix. */
  lemma RowCloses(m: seq<seq<int>>, rows: int, i: nat)
    requires i < |m| && i < rows && |m[i]| > 0
    ensures i < rows - 1 ==> Opened(m, rows, i + 1) == InRow(m, rows, i, |m[i]|) + "]" + ","
    ensures i == rows - 1 ==> Opened(m, rows, i + 1) == InRow(m, rows, i, |m[i]|) + "]"
  {
    var body := RowBody(m[i]);
    var row := RowText(m[i], '[', ']');
    var done := if i > 0 then Join(ListRows(m[..i]), ",") + "," else "";
    ExtendList(ListRows(m[..i]), row);
    TakeSnoc(m, i);
    ListRowsSnoc(m[..i], m[i]);
    var joined := Join(ListRows(m[..i + 1]), ",");
    assert done + row == joined;
    TakeAll(m[i]);
    assert Opened(m, rows, i) == "[" + done;
    assert InRow(m, rows, i, |m[i]|) == "[" + done + "[" + body by {
      assert body + "" == body;
    }
    Regroup5("[", done, "[", body, "]");
    if i < rows - 1 {
      assert Opened(m, rows, i + 1) == "[" + (joined + ",");
    } else {
      assert Opened(m, rows, i + 1) == "[" + (joined + "");
      assert joined + "" == joined;
    }
  }

  lemma TakeAll<T>(s: seq<T>)
    ensures s[..|s|] == s
  {
  }

  /** The whole matrix written, and read back by the planner. */
  lemma MatrixCloses(m: seq<seq<int>>, rows: int, n: nat)
    requires n <= |m| && n == if rows < 0 then 0 else rows
    ensures Opened(m, rows, n) + "]" == NestedText(m[..n], '[', ']')
    ensures Writable(m[..n]) ==> ParseNested(Opened(m, rows, n) + "]", '[', ']') == m[..n]
  {
    assert Opened(m, rows, n) == Opened(m, n, n);
    assert ListRows(m[..n]) == seq(|m[..n]|, k requires 0 <= k < |m[..n]| => RowText(m[..n][k], '[', ']'));
    if Writable(m[..n]) {
      NestedRoundTrip(m[..n], '[', ']');
    }
  }

  /**
   * convertMatrixToString: the first `rows` rows of the matrix as a list of
   * lists, "[[a,b,...],[c,d,...],...]", which the planner's eval reads back
   * as the same rows whenever the numbers are int-sized.
   */
  method ConvertMatrixToString(matrix: array2<int>, rows: int) returns (s: string)
    requires matrix.Length1 == Width && rows <= matrix.Length0
    ensures var m := Trajectory.Snapshot(matrix)[..if rows < 0 then 0 else rows];
      && s == NestedText(m, '[', ']')
      && (Writable(m) ==> ParseNested(s, '[', ']') == m)
  {
    ghost var m := Trajectory.Snapshot(matrix);
    ghost var n: nat := if rows < 0 then 0 else rows;
    s := "[";
    var i := 0;
    while i < rows
      invariant 0 <= i <= n
      invariant s == Opened(m, rows, i)
    {
      s := WriteBracketedRow(matrix, rows, i, s);
      i := i + 1;
    }
    assert i == n;
    s := s + "]";
    MatrixCloses(m, rows, n);
  }

  /** One iteration of the outer loop of convertMatrixToString: row `i` in brackets, then a comma unless it is the last. */
  method WriteBracketedRow(matrix: array2<int>, rows: int, i: nat, s0: string) returns (s: string)
    requires matrix.Length1 == Width && i < matrix.Length0 && i < rows
    requires s0 == Opened(Trajectory.Snapshot(matrix), rows, i)
    ensures s == Opened(Trajectory.Snapshot(matrix), rows, i + 1)
  {
    ghost var m := Trajectory.Snapshot(matrix);
    s := s0 + "[";
    RowOpens(m, rows, i);
    s := WriteRow(matrix, rows, i, s);
    RowCloses(m, rows, i);
    s := s + "]";
    if i < rows - 1 {
      s := s + ",";
    }
  }

  /** The inner loop of convertMatrixToString: the numbers of row `i`, comma-separated. */
  method WriteRow(matrix: array2<int>, rows: int, i: nat, s0: string) returns (s: string)
    requires matrix.Length1 == Width && i < matrix.Length0
    requires s0 == InRow(Trajectory.Snapshot(matrix), rows, i, 0)
    ensures s == InRow(Trajectory.Snapshot(matrix), rows, i, Width)
  {
    ghost var m := Trajectory.Snapshot(matrix);
    s := s0;
    var j := 0;
    while j < Width
      invariant 0 <= j <= Width
      invariant s == InRow(m, rows, i, j)
    {
      RowStep(m, rows, i, j);
      s := s + Show(matrix[i, j]);
      if j < Width - 1 {
        s := s + ",";
      }
      j := j + 1;
    }
  }

  // ------------------------------------------------------ text to commands

  /** The command a character of the command list stands for: its digit read as a command code. */
  function CommandOfChar(ch: char): (c: Option<Command>)
    ensures c == if IsDigit(ch) then CommandOfCode(ch as int - '0' as int) else None
  {
    if ch == '0' then Some(Forward)
    else if ch == '1' then Some(Right)
    else if ch == '2' then Some(Left)
    else if ch == '3' then Some(Stop)
    else None
  }

  function Commands(c: Option<Command>): seq<Command>
  {
    if c.Some? then [c.value] else []
  }

  /** The commands a text stands for, in order, every other character skipped. */
  function Decoded(s: string): (cs: seq<Command>)
    ensures |cs| <= |s|
    decreases |s|
  {
    if |s| == 0 then [] else Decoded(s[..|s| - 1]) + Commands(CommandOfChar(s[|s| - 1]))
  }

  /** Decoding works piece by piece: the commands of a text are those of its parts, in order. */
  lemma {:induction false} DecodedConcat(a: string, b: string)
    ensures Decoded(a + b) == Decoded(a) + Decoded(b)
    decreases |b|
  {
    if |b| == 0 {
      assert a + b == a;
    } else {
      assert (a + b)[..|a + b| - 1] == a + b[..|b| - 1];
      DecodedConcat(a, b[..|b| - 1]);
    }
  }

  /** A text with no command digit decodes to no command. */
  lemma {:induction false} DecodedNone(s: string)
    requires forall i :: 0 <= i < |s| ==> !('0' <= s[i] <= '3')
    ensures Decoded(s) == []
    decreases |s|
  {
    if |s| > 0 {
      DecodedNone(s[..|s| - 1]);
    }
  }

  /** convertStringToCommands: one command per digit '0'..'3', in order; any other character is skipped. */
  method ConvertStringToCommands(str: string) returns (commands: seq<Command>)
    ensures commands == Decoded(str)
  {
    commands := [];
    for i := 0 to |str|
      invariant commands == Decoded(str[..i])
    {
      assert str[..i + 1][..i] == str[..i];
      var ch := str[i];
      if ch == '0' {
        commands := commands + [Forward];
      } else if ch == '1' {
        commands := commands + [Right];
      } else if ch == '2' {
        commands := commands + [Left];
      } else if ch == '3' {
        commands := commands + [Stop];
      }
    }
    assert str[..|str|] == str;
  }

  lemma DecodedShow(c: Command)
    ensures Decoded(Show(CommandCode(c) as int)) == [c]
  {
    var t := Show(CommandCode(c) as int);
    assert t == [DigitChar(CommandCode(c) as int)];
    assert t[..0] == [];
  }

  /** The numbers of a command list, comma-separated, decode to the commands. */
  lemma {:induction false} DecodedCodes(cs: seq<Command>)
    ensures Decoded(RowBody(Trajectory.Codes(cs))) == cs
    decreases |cs|
  {
    if |cs| > 0 {
      var parts := ShowAll(Trajectory.Codes(cs));
      var rest := RowBody(Trajectory.Codes(cs[1..]));
      CodesTail(cs);
      DecodedShow(cs[0]);
      DecodedCodes(cs[1..]);
      if |cs| == 1 {
        assert RowBody(Trajectory.Codes(cs)) == parts[0];
      } else {
        assert RowBody(Trajectory.Codes(cs)) == parts[0] + "," + rest;
        DecodedAroundComma(parts[0], rest);
      }
      assert cs == [cs[0]] + cs[1..];
    }
  }

  lemma CodesTail(cs: seq<Command>)
    requires |cs| > 0
    ensures var parts := ShowAll(Trajectory.Codes(cs));
      parts[0] == Show(CommandCode(cs[0]) as int) && parts[1..] == ShowAll(Trajectory.Codes(cs[1..]))
  {
    assert Trajectory.Codes(cs)[1..] == Trajectory.Codes(cs[1..]);
  }

  /** A comma decodes to nothing. */
  lemma DecodedAroundComma(x: string, rest: string)
    ensures Decoded(x + "," + rest) == Decoded(x) + Decoded(rest)
  {
    var xc := x + ",";
    DecodedConcat(xc, rest);
    DecodedConcat(x, ",");
    DecodedNone(",");
    assert Decoded(xc) == Decoded(x);
  }

  /** The command list the planner prints, "{c1,c2,...}", decodes to the planned commands. */
  lemma CommandListRoundTrip(cs: seq<Command>)
    ensures Decoded(Trajectory.FormatCommands(Trajectory.Codes(cs))) == cs
  {
    var body := RowBody(Trajectory.Codes(cs));
    DecodedCodes(cs);
    DecodedConcat("{" + body, "}");
    DecodedConcat("{", body);
    assert Decoded("{") == [] && Decoded("}") == [];
  }

  // ------------------------------------------------------ the planner's output

  /** The parts of the planner's output: trimmed, split on '|', empty parts skipped. */
  function Parts(output: string): (r: seq<string>)
    ensures forall i :: 0 <= i < |r| ==> |r[i]| > 0
  {
    SplitSkip(Trimmed(output), "|")
  }

  /** How the output handler ends: the three parts were there, or indexing the missing one left the model. */
  datatype Handled = Delivered | PartMissing

  /**
   * The handler of the planner's output in run_python_code: the map is
   * rewritten from the first part, and the commands decoded from the second
   * are sent to the robot, all of them, each frame carrying their number;
   * the third part is not read. With fewer than three parts the list is
   * indexed out of range, which the model does not follow further.
   */
  method OnTrajectoryOutput(myMap: CuteMap.Map, postman: CutePostman.Postman, output: string,
                            garbage: seq<seq<int>>, ws: seq<WriteOutcome>) returns (r: Handled)
    requires myMap.Valid() && CuteMap.IsGrid(garbage)
    requires |Parts(output)| >= 3 ==>
      CuteMap.FitsGrid(CuteMap.Parsed(Parts(output)[0])) && |ws| >= |Decoded(Parts(output)[1])|
    modifies myMap.matrix, postman
    ensures r == PartMissing <==> |Parts(output)| < 3
    ensures r == PartMissing ==> unchanged(myMap.matrix) && postman.Abs() == old(postman.Abs())
    ensures r == Delivered ==>
      var parts := Parts(output);
      var cmds := Decoded(parts[1]);
      && (forall i, j :: 0 <= i < CuteMap.Rows && 0 <= j < CuteMap.Cols ==>
            myMap.matrix[i, j] == CuteMap.CellOf(CuteMap.Parsed(parts[0]), garbage, i, j))
      && postman.Abs() == CuteProxyPilot.SendAll(old(postman.Abs()), CuteProxyPilot.TrajectoryFrames(|cmds|, cmds), ws)
  {
    var parts := SplitSkip(Trimmed(output), "|");
    assert parts == Parts(output);
    if |parts| < 3 {
      return PartMissing;
    }
    myMap.UpdateFromTrajectoryResult(parts[0], garbage);
    SendCommands(postman, parts[1], ws);
    r := Delivered;
  }

  /** The second part decoded and the whole command vector sent, its length as the size. */
  method SendCommands(postman: CutePostman.Postman, text: string, ws: seq<WriteOutcome>)
    requires |ws| >= |Decoded(text)|
    modifies postman
    ensures var cmds := Decoded(text);
      postman.Abs() == CuteProxyPilot.SendAll(old(postman.Abs()), CuteProxyPilot.TrajectoryFrames(|cmds|, cmds), ws)
  {
    var commands := ConvertStringToCommands(text);
    var sent := new Command[|commands|](i requires 0 <= i < |commands| => commands[i]);
    assert sent[..sent.Length] == commands;
    CuteProxyPilot.SendMovesTrajectory(postman, sent, sent.Length, ws);
  }

  /**
   * A plan crosses to the console intact: the printed line splits into the
   * matrix, the command list and the count, the map reads back the matrix
   * and the command list decodes to the planned commands.
   */
  lemma PlanReachesConsole(m: seq<seq<int>>, cmds: seq<Command>, size: int)
    requires Writable(m)
    ensures var parts := Parts(Trajectory.Printed(Trajectory.Planned(cmds, size), m).value);
      && parts == [Trajectory.FormattedMatrix(m), Trajectory.FormatCommands(Trajectory.Codes(cmds)), Show(size)]
      && CuteMap.Parsed(parts[0]) == m
      && Decoded(parts[1]) == cmds
  {
    var a, b, c := Trajectory.FormattedMatrix(m), Trajectory.FormatCommands(Trajectory.Codes(cmds)), Show(size);
    NestedLacks(m, '{', '}', '|');
    LacksJoin(ShowAll(Trajectory.Codes(cmds)), ",", '|');
    assert Lacks(b, '|');
    ShowLacks(size, '{', '}');
    assert Trajectory.Printed(Trajectory.Planned(cmds, size), m).value == a + "|" + b + "|" + c + "\n";
    assert a[0] == '{' && |b| > 0;
    ThreeParts(a, b, c);
    CuteMap.FormattedMatrixParses(m);
    CommandListRoundTrip(cmds);
  }

  /** Three '|'-free texts joined by '|' on one printed line split back into those three. */
  lemma ThreeParts(a: string, b: string, c: string)
    requires |a| > 0 && |b| > 0 && |c| > 0 && Lacks(a, '|') && Lacks(b, '|') && Lacks(c, '|')
    requires !IsSpace(a[0]) && !IsSpace(c[|c| - 1])
    ensures Parts(a + "|" + b + "|" + c + "\n") == [a, b, c]
  {
    var line := a + "|" + b + "|" + c;
    JoinThree(a, b, c);
    assert line[0] == a[0] && line[|line| - 1] == c[|c| - 1];
    TrimmedLine(line);
    SplitSkipJoin([a, b, c], "|");
  }

  lemma JoinThree(a: string, b: string, c: string)
    ensures Join([a, b, c], "|") == a + "|" + b + "|" + c
  {
    assert [a, b, c][1..] == [b, c] && [b, c][1..] == [c];
    assert Join([b, c], "|") == b + "|" + c;
    Regroup(a + "|", b, "|", c);
  }

  /** When no plan was made the script prints less than three parts, and the console sends nothing. */
  lemma NoPlanNoParts(plan: Trajectory.Plan, m: seq<seq<int>>)
    requires plan == Trajectory.NoPath || plan == Trajectory.MissingEndpoint
    ensures |Parts(Trajectory.Printed(plan, m).value)| < 3
  {
    if plan == Trajectory.NoPath {
      var line := "No path found";
      assert Trajectory.Printed(plan, m).value == line + "\n";
      LineWithoutBar(line);
    } else {
      assert Trajectory.Printed(plan, m).value == "";
      assert Trimmed("") == "";
      assert Split("", "|") == [""];
    }
  }

  /** A line holding no '|' prints as at most one part. */
  lemma LineWithoutBar(line: string)
    requires |line| > 0 && !IsSpace(line[0]) && !IsSpace(line[|line| - 1]) && Lacks(line, '|')
    ensures |Parts(line + "\n")| <= 1
  {
    TrimmedLine(line);
    FindAbsent(line, "|");
    assert Split(line, "|") == [line];
    assert NonEmpty([line]) == [line] + NonEmpty([]);
    assert Parts(line + "\n") == NonEmpty([line]);
  }
}
