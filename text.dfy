/*
 * The string operations the console's text formats are built from: Python's
 * str(int) and ",".join, and Qt's QString::split (with
 * Qt::SkipEmptyParts), QString::replace, QString::trimmed and
 * QString::toInt. Strings are sequences of characters; only the ASCII
 * whitespace characters are treated as spaces.
 */
module Text {

  predicate IsSpace(c: char)
  {
    c == ' ' || ('\t' <= c <= '\r')
  }

  predicate IsDigit(c: char)
  {
    '0' <= c <= '9'
  }

  predicate AllDigits(s: string)
  {
    forall i :: 0 <= i < |s| ==> IsDigit(s[i])
  }

  function DigitChar(d: int): (c: char)
    requires 0 <= d < 10
    ensures IsDigit(c) && c as int - '0' as int == d
  {
    ('0' as int + d) as char
  }

  // ---------------------------------------------------------------- numbers

  /** The decimal digits of n, most significant first, without leading zeros. */
  function Digits(n: nat): (s: string)
    ensures |s| > 0 && AllDigits(s)
    decreases n
  {
    if n < 10 then [DigitChar(n)] else Digits(n / 10) + [DigitChar(n % 10)]
  }

  /** Python's str(int) and QTextStream's << int: an optional minus sign, then the digits. */
  function Show(n: int): (s: string)
    ensures |s| > 0 && (s[0] == '-' <==> n < 0) && IsDigit(s[|s| - 1])
    ensures forall i :: 0 <= i < |s| ==> IsDigit(s[i]) || (i == 0 && s[i] == '-')
  {
    if n < 0 then "-" + Digits(-n) else Digits(n)
  }

  /** The number a string of decimal digits denotes. */
  function Value(s: string): nat
    requires AllDigits(s)
  {
    if |s| == 0 then 0 else Value(s[..|s| - 1]) * 10 + (s[|s| - 1] as int - '0' as int)
  }

  lemma {:induction false} DigitsValue(n: nat)
    ensures Value(Digits(n)) == n
    decreases n
  {
    if n >= 10 {
      DigitsValue(n / 10);
      var s := Digits(n);
      assert s[..|s| - 1] == Digits(n / 10);
    }
  }

  const Int32Min := -0x8000_0000
  const Int32Max := 0x7FFF_FFFF

  /** A signed decimal that fits an int, or 0 (the value toInt reports on failure). */
  function Signed(negative: bool, digits: string): int
  {
    if |digits| > 0 && AllDigits(digits) then
      var v: int := if negative then 0 - Value(digits) else Value(digits);
      if Int32Min <= v <= Int32Max then v else 0
    else 0
  }

  /** QString::toInt in base 10: an optional sign and at least one digit, within int range, or else 0. */
  function ToInt(s: string): int
  {
    if |s| > 0 && (s[0] == '-' || s[0] == '+') then Signed(s[0] == '-', s[1..]) else Signed(false, s)
  }

  /** Reading back what str() wrote gives the number back, for every int-sized number. */
  lemma ShowToInt(n: int)
    requires Int32Min <= n <= Int32Max
    ensures ToInt(Show(n)) == n
  {
    if n < 0 {
      DigitsValue(-n);
      assert Show(n)[1..] == Digits(-n);
    } else {
      DigitsValue(n);
    }
  }

  // ---------------------------------------------------------------- trimming

  function TrimStart(s: string): (t: string)
    ensures |t| <= |s| && t == s[|s| - |t|..]
    ensures |t| == 0 || !IsSpace(t[0])
  {
    if |s| > 0 && IsSpace(s[0]) then TrimStart(s[1..]) else s
  }

  function TrimEnd(s: string): (t: string)
    ensures |t| <= |s| && t == s[..|t|]
    ensures |t| == 0 || !IsSpace(t[|t| - 1])
  {
    if |s| > 0 && IsSpace(s[|s| - 1]) then TrimEnd(s[..|s| - 1]) else s
  }

  /** QString::trimmed: whitespace removed from both ends. */
  function Trimmed(s: string): (t: string)
    ensures |t| == 0 || (!IsSpace(t[0]) && !IsSpace(t[|t| - 1]))
  {
    TrimEnd(TrimStart(s))
  }

  lemma TrimmedUnspaced(s: string)
    requires |s| > 0 && !IsSpace(s[0]) && !IsSpace(s[|s| - 1])
    ensures Trimmed(s) == s
  {
  }

  // ---------------------------------------------------------------- joining

  /** Python's sep.join(parts). */
  function Join(parts: seq<string>, sep: string): (s: string)
    decreases |parts|
  {
    if |parts| == 0 then ""
    else if |parts| == 1 then parts[0]
    else parts[0] + sep + Join(parts[1..], sep)
  }

  /** The string `s` has no character `c`. */
  predicate Lacks(s: string, c: char)
  {
    forall i :: 0 <= i < |s| ==> s[i] != c
  }

  /** Position of the first occurrence of `pat` in `s`, or |s| when there is none. */
  function Find(s: string, pat: string): (k: nat)
    requires |pat| > 0
    ensures k <= |s|
    ensures k < |s| ==> k + |pat| <= |s| && s[k..k + |pat|] == pat
    decreases |s|
  {
    if |s| < |pat| then |s|
    else if s[..|pat|] == pat then 0
    else 1 + Find(s[1..], pat)
  }

  lemma {:induction false} FindAbsent(s: string, pat: string)
    requires |pat| > 0 && Lacks(s, pat[0])
    ensures Find(s, pat) == |s|
    decreases |s|
  {
    if |s| >= |pat| {
      assert s[..|pat|][0] == s[0];
      FindAbsent(s[1..], pat);
    }
  }

  lemma {:induction false} FindAfter(a: string, pat: string, b: string)
    requires |pat| > 0 && Lacks(a, pat[0])
    ensures Find(a + pat + b, pat) == |a|
    decreases |a|
  {
    var s := a + pat + b;
    if |a| == 0 {
      assert s[..|pat|] == pat;
    } else {
      assert s[..|pat|][0] == a[0];
      assert s[1..] == a[1..] + pat + b;
      FindAfter(a[1..], pat, b);
    }
  }

  // ---------------------------------------------------------------- splitting

  /** QString::split(sep) keeping empty parts. */
  function Split(s: string, sep: string): (parts: seq<string>)
    requires |sep| > 0
    ensures |parts| > 0
    decreases |s|
  {
    var k := Find(s, sep);
    if k == |s| then [s] else [s[..k]] + Split(s[k + |sep|..], sep)
  }

  /** The effect of Qt::SkipEmptyParts. */
  function NonEmpty(parts: seq<string>): (r: seq<string>)
    ensures forall i :: 0 <= i < |r| ==> |r[i]| > 0
  {
    if |parts| == 0 then []
    else if |parts[0]| == 0 then NonEmpty(parts[1..])
    else [parts[0]] + NonEmpty(parts[1..])
  }

  /** QString::split(sep, Qt::SkipEmptyParts). */
  function SplitSkip(s: string, sep: string): seq<string>
    requires |sep| > 0
  {
    NonEmpty(Split(s, sep))
  }

  /**
   * Splitting undoes joining, provided no part contains the separator's
   * first character; parts that are all non-empty survive SkipEmptyParts.
   */
  lemma {:induction false} SplitJoin(parts: seq<string>, sep: string)
    requires |sep| > 0 && |parts| > 0
    requires forall i :: 0 <= i < |parts| ==> Lacks(parts[i], sep[0])
    ensures Split(Join(parts, sep), sep) == parts
    decreases |parts|
  {
    if |parts| == 1 {
      FindAbsent(parts[0], sep);
    } else {
      var rest := Join(parts[1..], sep);
      FindAfter(parts[0], sep, rest);
      var s := parts[0] + sep + rest;
      assert s[..|parts[0]|] == parts[0];
      assert s[|parts[0]| + |sep|..] == rest;
      SplitJoin(parts[1..], sep);
    }
  }

  lemma {:induction false} NonEmptyKeeps(parts: seq<string>)
    requires forall i :: 0 <= i < |parts| ==> |parts[i]| > 0
    ensures NonEmpty(parts) == parts
    decreases |parts|
  {
    if |parts| > 0 {
      NonEmptyKeeps(parts[1..]);
    }
  }

  lemma SplitSkipJoin(parts: seq<string>, sep: string)
    requires |sep| > 0 && |parts| > 0
    requires forall i :: 0 <= i < |parts| ==> Lacks(parts[i], sep[0]) && |parts[i]| > 0
    ensures SplitSkip(Join(parts, sep), sep) == parts
  {
    SplitJoin(parts, sep);
    NonEmptyKeeps(parts);
  }

  // ---------------------------------------------------------------- replacing

  predicate StartsWith(s: string, pat: string)
  {
    |pat| <= |s| && s[..|pat|] == pat
  }

  /** QString::replace(pat, ""): every occurrence, scanning left to right without overlap. */
  function Erase(s: string, pat: string): (r: string)
    requires |pat| > 0
    ensures |r| <= |s|
    decreases |s|
  {
    if StartsWith(s, pat) then Erase(s[|pat|..], pat)
    else if |s| == 0 then ""
    else [s[0]] + Erase(s[1..], pat)
  }

  /** No occurrence of `pat` starts in the first `n` positions of `s`. */
  predicate NoStartBefore(s: string, n: nat, pat: string)
  {
    forall k :: 0 <= k < n && k <= |s| ==> !StartsWith(s[k..], pat)
  }

  /** A prefix at none of whose positions the pattern starts is kept as it is. */
  lemma {:induction false} EraseKeeps(s: string, n: nat, pat: string)
    requires |pat| > 0 && n <= |s| && NoStartBefore(s, n, pat)
    ensures Erase(s, pat) == s[..n] + Erase(s[n..], pat)
    decreases n
  {
    if n > 0 {
      EraseKeeps(s, n - 1, pat);
      var t := s[n - 1..];
      assert !StartsWith(t, pat);
      assert t[1..] == s[n..];
      assert s[..n] == s[..n - 1] + [s[n - 1]];
    }
  }

  /** The string has no two adjacent characters `c`. */
  predicate NoPair(s: string, c: char)
  {
    forall k :: 0 <= k < |s| - 1 ==> !(s[k] == c && s[k + 1] == c)
  }

  /** With no doubled `c` and no `c` at its end, no position of `a` starts a [c, c] pattern in a + b. */
  lemma NoPairStarts(a: string, b: string, c: char)
    requires NoPair(a, c) && (|a| == 0 || a[|a| - 1] != c)
    ensures NoStartBefore(a + b, |a|, [c, c])
  {
    forall k | 0 <= k < |a|
      ensures !StartsWith((a + b)[k..], [c, c])
    {
      var x := (a + b)[k..];
      assert x[0] == a[k];
      if k + 1 < |a| {
        assert x[1] == a[k + 1];
      }
    }
  }

  lemma {:induction false} JoinSnoc(parts: seq<string>, sep: string, x: string)
    requires |parts| > 0
    ensures Join(parts + [x], sep) == Join(parts, sep) + sep + x
    decreases |parts|
  {
    if |parts| == 1 {
      assert (parts + [x])[1..] == [x];
    } else {
      assert (parts + [x])[1..] == parts[1..] + [x];
      JoinSnoc(parts[1..], sep, x);
    }
  }

  lemma {:induction false} LacksJoin(parts: seq<string>, sep: string, ch: char)
    requires Lacks(sep, ch) && forall i :: 0 <= i < |parts| ==> Lacks(parts[i], ch)
    ensures Lacks(Join(parts, sep), ch)
    decreases |parts|
  {
    if |parts| > 1 {
      LacksJoin(parts[1..], sep, ch);
    }
  }

  lemma NoPairConcat(a: string, b: string, c: char)
    requires NoPair(a, c) && NoPair(b, c)
    requires |a| == 0 || |b| == 0 || a[|a| - 1] != c || b[0] != c
    ensures NoPair(a + b, c)
  {
    forall k | 0 <= k < |a + b| - 1
      ensures !((a + b)[k] == c && (a + b)[k + 1] == c)
    {
      if k + 1 < |a| {
        assert (a + b)[k] == a[k] && (a + b)[k + 1] == a[k + 1];
      } else if k >= |a| {
        assert (a + b)[k] == b[k - |a|] && (a + b)[k + 1] == b[k + 1 - |a|];
      }
    }
  }

  // ---------------------------------------------------------- nested lists

  /** A pair of distinct bracket characters that cannot occur in a number or a separator. */
  predicate Brackets(o: char, c: char)
  {
    o != c && !IsDigit(o) && !IsDigit(c) && o != '-' && c != '-' && o != ',' && c != ','
  }

  /** map(str, xs). */
  function ShowAll(xs: seq<int>): (r: seq<string>)
    ensures |r| == |xs| && forall i :: 0 <= i < |xs| ==> r[i] == Show(xs[i])
  {
    seq(|xs|, i requires 0 <= i < |xs| => Show(xs[i]))
  }

  /** A row of numbers, comma-separated, without brackets. */
  function RowBody(row: seq<int>): string
  {
    Join(ShowAll(row), ",")
  }

  /** The bracketed text of a row. */
  function RowText(row: seq<int>, o: char, c: char): string
  {
    [o] + RowBody(row) + [c]
  }

  /** A matrix written as a bracketed, comma-separated list of bracketed rows, without spaces. */
  function NestedText(m: seq<seq<int>>, o: char, c: char): string
  {
    [o] + Join(seq(|m|, i requires 0 <= i < |m| => RowText(m[i], o, c)), ",") + [c]
  }

  /** The row texts of a nested list: the doubled outer brackets erased, then split between rows. */
  function NestedRows(t: string, o: char, c: char): seq<string>
  {
    SplitSkip(Erase(Erase(t, [o, o]), [c, c]), [c, ',', o])
  }

  /** The number texts of a row. */
  function Numbers(row: string): seq<string>
  {
    SplitSkip(row, ",")
  }

  /** The numbers of a row text, each trimmed and read with toInt. */
  function RowValues(row: string): (r: seq<int>)
    ensures |r| == |Numbers(row)|
  {
    var nums := Numbers(row);
    seq(|nums|, j requires 0 <= j < |nums| => ToInt(Trimmed(nums[j])))
  }

  /** The matrix read out of a nested list text, row by row. */
  function ParseNested(t: string, o: char, c: char): (m: seq<seq<int>>)
    ensures |m| == |NestedRows(t, o, c)|
    ensures forall i :: 0 <= i < |m| ==> m[i] == RowValues(NestedRows(t, o, c)[i])
  {
    var rows := NestedRows(t, o, c);
    seq(|rows|, i requires 0 <= i < |rows| => RowValues(rows[i]))
  }

  /** A matrix the nested list format can carry: non-empty, rows non-empty, numbers int-sized. */
  predicate Writable(m: seq<seq<int>>)
  {
    |m| > 0 && forall i :: 0 <= i < |m| ==> |m[i]| > 0 && forall j :: 0 <= j < |m[i]| ==> Int32Min <= m[i][j] <= Int32Max
  }

  /** A shown number holds no comma, no bracket and no space at either end. */
  lemma ShowLacks(n: int, o: char, c: char)
    requires Brackets(o, c)
    ensures var s := Show(n);
      Lacks(s, ',') && Lacks(s, o) && Lacks(s, c) && !IsSpace(s[0]) && !IsSpace(s[|s| - 1])
  {
    var s := Show(n);
    forall i | 0 <= i < |s|
      ensures s[i] != ',' && s[i] != o && s[i] != c
    {
      assert IsDigit(s[i]) || s[i] == '-';
    }
  }

  lemma RowBodyParses(row: seq<int>, o: char, c: char)
    requires Brackets(o, c)
    requires |row| > 0 && forall j :: 0 <= j < |row| ==> Int32Min <= row[j] <= Int32Max
    ensures |RowBody(row)| > 0 && Lacks(RowBody(row), o) && Lacks(RowBody(row), c)
    ensures RowValues(RowBody(row)) == row
  {
    var shown := ShowAll(row);
    forall j | 0 <= j < |shown|
      ensures Lacks(shown[j], ',') && |shown[j]| > 0 && Lacks(shown[j], o) && Lacks(shown[j], c)
    {
      ShowLacks(row[j], o, c);
    }
    SplitSkipJoin(shown, ",");
    LacksJoin(shown, ",", o);
    LacksJoin(shown, ",", c);
    assert |RowBody(row)| > 0 by {
      if |shown| > 1 {
        assert RowBody(row) == shown[0] + "," + Join(shown[1..], ",");
      }
    }
    assert Numbers(RowBody(row)) == shown;
    forall j | 0 <= j < |row|
      ensures RowValues(RowBody(row))[j] == row[j]
    {
      ShowLacks(row[j], o, c);
      TrimmedUnspaced(shown[j]);
      ShowToInt(row[j]);
    }
  }

  /** Row bodies joined between rows have no doubled bracket and neither start nor end with one. */
  lemma {:induction false} RowsJoined(rs: seq<string>, o: char, c: char)
    requires o != c && o != ',' && c != ','
    requires |rs| > 0 && forall i :: 0 <= i < |rs| ==> |rs[i]| > 0 && Lacks(rs[i], o) && Lacks(rs[i], c)
    ensures var b := Join(rs, [c, ',', o]);
      && |b| > 0 && NoPair(b, o) && NoPair(b, c)
      && b[0] == rs[0][0] && b[|b| - 1] == rs[|rs| - 1][|rs[|rs| - 1]| - 1]
    decreases |rs|
  {
    var b := Join(rs, [c, ',', o]);
    if |rs| == 1 {
      assert NoPair(rs[0], o) && NoPair(rs[0], c);
    } else {
      var rest := Join(rs[1..], [c, ',', o]);
      RowsJoined(rs[1..], o, c);
      var sep := [c, ',', o];
      assert NoPair(rs[0], o) && NoPair(rs[0], c);
      assert rs[0][|rs[0]| - 1] != o && rs[0][|rs[0]| - 1] != c;
      assert rest[0] == rs[1][0] && rs[1][0] != o;
      NoPairConcat(rs[0], sep, o);
      NoPairConcat(rs[0], sep, c);
      NoPairConcat(rs[0] + sep, rest, o);
      NoPairConcat(rs[0] + sep, rest, c);
      assert b == rs[0] + sep + rest;
    }
  }

  /** Bracketed parts joined by commas are the parts joined by "c,o", bracketed once. */
  lemma {:induction false} WrapJoin(parts: seq<string>, o: char, c: char)
    requires |parts| > 0
    ensures Join(seq(|parts|, i requires 0 <= i < |parts| => [o] + parts[i] + [c]), ",")
      == [o] + Join(parts, [c, ',', o]) + [c]
    decreases |parts|
  {
    var w := seq(|parts|, i requires 0 <= i < |parts| => [o] + parts[i] + [c]);
    if |parts| > 1 {
      WrapJoin(parts[1..], o, c);
      assert w[1..] == seq(|parts[1..]|, i requires 0 <= i < |parts[1..]| => [o] + parts[1..][i] + [c]);
    }
  }

  lemma NestedShape(m: seq<seq<int>>, o: char, c: char)
    requires |m| > 0
    ensures NestedText(m, o, c) == [o, o] + Join(seq(|m|, i requires 0 <= i < |m| => RowBody(m[i])), [c, ',', o]) + [c, c]
  {
    var rs := seq(|m|, i requires 0 <= i < |m| => RowBody(m[i]));
    var texts := seq(|m|, i requires 0 <= i < |m| => RowText(m[i], o, c));
    WrapJoin(rs, o, c);
    assert texts == seq(|rs|, i requires 0 <= i < |rs| => [o] + rs[i] + [c]);
  }

  /** Erasing [o, o] then [c, c] takes off exactly the outer brackets of a body without doubled brackets. */
  lemma StripOuter(body: string, o: char, c: char)
    requires o != c && |body| > 0 && NoPair(body, o) && NoPair(body, c)
    requires body[|body| - 1] != o && body[|body| - 1] != c
    ensures Erase(Erase([o, o] + body + [c, c], [o, o]), [c, c]) == body
  {
    var t := [o, o] + body + [c, c];
    assert StartsWith(t, [o, o]);
    assert t[2..] == body + [c, c];
    NoPairStarts(body, [c, c], o);
    EraseKeeps(body + [c, c], |body|, [o, o]);
    assert (body + [c, c])[..|body|] == body && (body + [c, c])[|body|..] == [c, c];
    assert Erase([c, c], [o, o]) == [c, c] by {
      assert !StartsWith([c, c], [o, o]);
      assert [c, c][1..] == [c];
      assert !StartsWith([c], [o, o]);
      assert [c][1..] == [];
    }
    assert Erase(t, [o, o]) == body + [c, c];
    NoPairStarts(body, [c, c], c);
    EraseKeeps(body + [c, c], |body|, [c, c]);
    assert Erase([c, c], [c, c]) == [] by {
      assert StartsWith([c, c], [c, c]);
      assert [c, c][2..] == [];
    }
  }

  /**
   * Reading a nested list text gives back the matrix it was written from,
   * for any matrix the format can carry.
   */
  lemma NestedRoundTrip(m: seq<seq<int>>, o: char, c: char)
    requires Brackets(o, c) && Writable(m)
    ensures ParseNested(NestedText(m, o, c), o, c) == m
  {
    var rs := seq(|m|, i requires 0 <= i < |m| => RowBody(m[i]));
    forall i | 0 <= i < |m|
      ensures |rs[i]| > 0 && Lacks(rs[i], o) && Lacks(rs[i], c)
    {
      RowBodyParses(m[i], o, c);
    }
    var t := NestedText(m, o, c);
    NestedShape(m, o, c);
    RowsJoined(rs, o, c);
    StripOuter(Join(rs, [c, ',', o]), o, c);
    SplitSkipJoin(rs, [c, ',', o]);
    assert NestedRows(t, o, c) == rs;
    forall i | 0 <= i < |m|
      ensures ParseNested(t, o, c)[i] == m[i]
    {
      RowBodyParses(m[i], o, c);
    }
  }

  /** A nested list has only digits, minus signs, commas and the two brackets. */
  lemma NestedLacks(m: seq<seq<int>>, o: char, c: char, ch: char)
    requires !IsDigit(ch) && ch != '-' && ch != ',' && ch != o && ch != c
    ensures Lacks(NestedText(m, o, c), ch)
  {
    var rows := seq(|m|, i requires 0 <= i < |m| => RowText(m[i], o, c));
    forall i | 0 <= i < |m|
      ensures Lacks(rows[i], ch)
    {
      LacksJoin(ShowAll(m[i]), ",", ch);
    }
    LacksJoin(rows, ",", ch);
  }

  /** A line printed with its newline trims back to the line, when it neither starts nor ends with a blank. */
  lemma TrimmedLine(x: string)
    requires |x| > 0 && !IsSpace(x[0]) && !IsSpace(x[|x| - 1])
    ensures Trimmed(x + "\n") == x
  {
    var s := x + "\n";
    assert s[0] == x[0];
    assert TrimStart(s) == s;
    assert IsSpace(s[|s| - 1]);
    assert s[..|s| - 1] == x;
    assert TrimEnd(s) == TrimEnd(x);
  }
}
